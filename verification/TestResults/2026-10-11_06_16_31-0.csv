TestResult.DisplayName,TestResult.Outcome,TestResult.Duration,TestResult.ResourceCount,RandomSeed
Paths.JoinUnderDirectory (correctness),Passed,00:00:00.1487074,178442,4
Paths.JoinUnderDirectory (well-formedness),Passed,00:00:00.0969234,34183,4
