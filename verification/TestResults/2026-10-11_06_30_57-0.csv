TestResult.DisplayName,TestResult.Outcome,TestResult.Duration,TestResult.ResourceCount,RandomSeed
AddExpensePage.PaidPerPayerEntry (correctness),Failed,00:00:00.6229378,2040548,1
