TestResult.DisplayName,TestResult.Outcome,TestResult.Duration,TestResult.ResourceCount,RandomSeed
Paths.JoinUnderDirectory (correctness),Passed,00:00:00.1260484,172774,3
Paths.JoinUnderDirectory (well-formedness),Passed,00:00:00.0759220,34184,3
