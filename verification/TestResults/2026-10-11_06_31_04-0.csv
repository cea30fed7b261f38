TestResult.DisplayName,TestResult.Outcome,TestResult.Duration,TestResult.ResourceCount,RandomSeed
AddExpensePage.PaidPerPayerEntry (correctness),Passed,00:00:00.4209530,1495204,3
