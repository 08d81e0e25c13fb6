TestResult.DisplayName,TestResult.Outcome,TestResult.Duration,TestResult.ResourceCount,RandomSeed
Paths.JoinUnderDirectory (correctness),Passed,00:00:00.1281888,174209,5
Paths.JoinUnderDirectory (well-formedness),Passed,00:00:00.0786963,34185,5
