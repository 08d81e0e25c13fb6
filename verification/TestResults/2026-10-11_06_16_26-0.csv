TestResult.DisplayName,TestResult.Outcome,TestResult.Duration,TestResult.ResourceCount,RandomSeed
Paths.JoinUnderDirectory (correctness),Passed,00:00:00.1276918,174196,2
Paths.JoinUnderDirectory (well-formedness),Passed,00:00:00.0912540,33988,2
