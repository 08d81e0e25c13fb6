TestResult.DisplayName,TestResult.Outcome,TestResult.Duration,TestResult.ResourceCount,RandomSeed
Paths.JoinUnderDirectory (correctness),Failed,00:00:00.8737012,2030664,1
Paths.JoinUnderDirectory (well-formedness),Passed,00:00:00.1519447,32652,1
