TestResult.DisplayName,TestResult.Outcome,TestResult.Duration,TestResult.ResourceCount,RandomSeed
AddExpensePage.PaidPerPayerEntry (correctness),Passed,00:00:00.1383725,181096,0
