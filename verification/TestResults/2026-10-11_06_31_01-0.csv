TestResult.DisplayName,TestResult.Outcome,TestResult.Duration,TestResult.ResourceCount,RandomSeed
AddExpensePage.PaidPerPayerEntry (correctness),Failed,00:00:00.6939267,2040548,2
