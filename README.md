# MovieQuiz core, modelled in Dafny

MovieQuiz is an iOS trivia game. It asks ten yes/no questions about IMDb movie ratings, such as "Рейтинг этого фильма больше чем 8?" ("Is this film's rating greater than 8?"). It also keeps lifetime statistics. This project models the three pieces of sequential logic under the UIKit layer:

- **`Presentation.MovieQuizPresenter`** (`Presenter.dfy`). This is the presenter's question index, which starts at 0 and can be reset or advanced. It also covers the "last question" test, the checking of a yes/no answer against the current question, and the text of the step shown to the player: the prompt and the counter `"<index+1>/10"`.
- **`Questions`** (`Questions.dfy`). This covers reading a rating string, where text that does not parse reads as 0. It also covers building a question from a movie, a threshold from {7, 8, 9} and a random comparison. Finally it has the `QuestionFactory` class: `LoadData` replaces its movie list, and `RequestNextQuestion` delivers a question, reports an image-download failure, or delivers nothing when there are no movies.
- **`Statistics.StatisticService`** (`Statistics.dfy`). This is the statistics store. Four keys of a key/value store hold the lifetime correct count, the total count, the games count and the best game. Missing values read as 0, or as a zero record. `Store` adds a finished game, and `TotalAccuracy` is `correct / total * 100`.

`Decimal.dfy` holds the decimal text of whole numbers, as Swift's string interpolation writes them, and its inverse. `Models.dfy` holds `QuizQuestion` and the text fields of the step view model.

Everything that is not sequential logic becomes a parameter:

- the random draws: the movie index that `randomElement()` gives, the threshold draw and `Bool.random()`;
- the movies loader's result;
- the image download, as a function from URL to a fetch result;
- the clock, as an opaque `now` timestamp;
- the persisted store, as an in-memory map from key to stored value.

The delegate and view-controller callbacks become returned values: an `Option<bool>` answer result, a `LoadNotification` and a `Delivery`.

Three points about the code that the model keeps as they are:

- `requestNextQuestion` returns silently when no movies are loaded. Nothing reaches the delegate.
- An image-download failure goes through the same `didFailToLoadData(with:)` delegate call as a failed list load.
- `GameRecord` and `isBetterThan` are defined outside the modelled files. The store keeps the order abstract: it is a function value given to the constructor, and `Store` is stated relative to it.

## Model

| member | source | states |
|---|---|---|
| `Presentation.MovieQuizPresenter.constructor` | MovieQuiz/Presentation/MovieQuizPresenter.swift:11-14 | the question count is 10, the index starts at 0 and there is no current question |
| `Presentation.MovieQuizPresenter.YesButtonClicked` | MovieQuiz/Presentation/MovieQuizPresenter.swift:16-23 | with no current question nothing is reported; otherwise the reported result is the question's `correctAnswer`; no state changes |
| `Presentation.MovieQuizPresenter.NoButtonClicked` | MovieQuiz/Presentation/MovieQuizPresenter.swift:25-32 | with no current question nothing is reported; otherwise the reported result is the negation of `correctAnswer`; no state changes |
| `Presentation.MovieQuizPresenter.IsLastQuestion` | MovieQuiz/Presentation/MovieQuizPresenter.swift:34-36 | true exactly when the index is 9 |
| `Presentation.MovieQuizPresenter.ResetQuestionIndex` | MovieQuiz/Presentation/MovieQuizPresenter.swift:38-40 | the index becomes 0, which is not the last question; the current question is unchanged |
| `Presentation.MovieQuizPresenter.SwitchToNextQuestion` | MovieQuiz/Presentation/MovieQuizPresenter.swift:42-44 | the index grows by exactly 1 with no bound of its own; from an index in range that is not the last, it stays in range; the current question is unchanged |
| `Presentation.GuardedIndexStaysInRange` | MovieQuiz/Presentation/MovieQuizPresenter.swift:34-44 | any sequence of resets and switches, where each switch happens only when the index is not the last, keeps the index within `0..amount-1` |
| `Presentation.IsCorrect` | MovieQuiz/Presentation/MovieQuizPresenter.swift:21-30 | "yes" is right exactly when the question's `correctAnswer` is true, and "no" exactly when it is false |
| `Presentation.Counter` | MovieQuiz/Presentation/MovieQuizPresenter.swift:50 | the counter is the numeral of the position, then a slash, then the numeral of the amount; its only slash sits right after the first numeral |
| `Presentation.CounterRoundTrip` | MovieQuiz/Presentation/MovieQuizPresenter.swift:50 | the counter text `"<position>/<amount>"` reads back as exactly the two numbers it was built from |
| `Presentation.CounterUnique` | MovieQuiz/Presentation/MovieQuizPresenter.swift:50 | any text that reads back as a position and an amount is exactly their counter, so no zero-padded or other variant reads the same |
| `Presentation.MovieQuizPresenter.Convert` | MovieQuiz/Presentation/MovieQuizPresenter.swift:46-51 | the step copies the question text unchanged; its counter is exactly `Counter(index+1, 10)`, which reads back as `(index+1, 10)`; on the first question the counter is `"1/10"` |
| `Decimal.NatToString` | MovieQuiz/Presentation/MovieQuizPresenter.swift:50 | an interpolated whole number is a non-empty digit string with no leading zero, one digit long exactly below 10 |
| `Decimal.ParseNatToString` | MovieQuiz/Services/QuestionFactory.swift:58 | reading the decimal numeral of `n` back gives `n` |
| `Decimal.NatToStringInjective` | MovieQuiz/Services/QuestionFactory.swift:58 | different numbers are written as different numerals |
| `Decimal.ParseNatPositive` | MovieQuiz/Presentation/MovieQuizPresenter.swift:50 | a digit string with a non-zero first digit has a positive value |
| `Decimal.NatToStringParseNat` | MovieQuiz/Presentation/MovieQuizPresenter.swift:50 | every numeral without leading zeros is the one interpolation writes for its value |
| `Questions.FractionValue` | MovieQuiz/Services/QuestionFactory.swift:54 | the digits after the decimal point add a value in `[0, 1)`; moved back across the point by as many places as there are digits, it is exactly those digits read as a whole number, so "75" is worth 0.75 |
| `Questions.ParseUnsigned` | MovieQuiz/Services/QuestionFactory.swift:54 | an unsigned rating that parses is non-negative |
| `Questions.ParseRating` | MovieQuiz/Services/QuestionFactory.swift:54 | `Float(String)` on decimal text: the empty string does not parse; a parsed value is non-positive with a leading minus and non-negative otherwise |
| `Questions.Rating` | MovieQuiz/Services/QuestionFactory.swift:54 | `Float(movie.rating) ?? 0`: the parsed value when the text parses, and 0 when it does not |
| `Questions.ParseUnsignedSplit` | MovieQuiz/Services/QuestionFactory.swift:54 | text whose first point has digits on both sides (at least one digit in all) parses, to the digits before the point read as a whole number plus the value of the digits after it |
| `Questions.ParseUnsignedPoint` | MovieQuiz/Services/QuestionFactory.swift:54 | `<digits>.<digits>`, with either side possibly empty but not both, parses to the whole part plus the fraction |
| `Questions.ParseUnsignedWhole` | MovieQuiz/Services/QuestionFactory.swift:54 | a non-empty digit string without a point parses to the number it writes |
| `Questions.ParseRatingSign` | MovieQuiz/Services/QuestionFactory.swift:54 | a leading `+` leaves the reading unchanged, a leading `-` negates it (and fails when the rest fails), and text that does not start with a sign is read unsigned |
| `Questions.ParseUnsignedAccepts` | MovieQuiz/Services/QuestionFactory.swift:54 | unsigned text parses if and only if it is digits only, or digits, one point and digits, with at least one digit in all; all other text is rejected |
| `Questions.Unsigned` | MovieQuiz/Services/QuestionFactory.swift:54 | the text after a leading `+` or `-`, and the whole text when it has no sign |
| `Questions.ParseRatingAccepts` | MovieQuiz/Services/QuestionFactory.swift:54 | a rating parses if and only if, after an optional sign, it is decimal text; every other rating reads as 0 (`?? 0`) |
| `Questions.NonNumericRatingsReadZero` | MovieQuiz/Services/QuestionFactory.swift:54 | "N/A" and "8,7" do not parse and read as 0 |
| `Questions.TwoPointRatingReadsZero` | MovieQuiz/Services/QuestionFactory.swift:54 | "1.2.3" does not parse and reads as 0 |
| `Questions.DigitlessRatingsReadZero` | MovieQuiz/Services/QuestionFactory.swift:54 | "." and "-" do not parse and read as 0 |
| `Questions.ParseRatingDecimal` | MovieQuiz/Services/QuestionFactory.swift:54 | a rating written `<whole>.<fraction>` ("8.7", "8.75") parses to `whole` plus the value of the fraction digits |
| `Questions.NegativeRatingDecimal` | MovieQuiz/Services/QuestionFactory.swift:54 | a rating written `-<whole>.<fraction>` parses to the negation of that value |
| `Questions.ParseRatingWhole` | MovieQuiz/Services/QuestionFactory.swift:54 | a whole-number rating ("8") parses to that number |
| `Questions.EmptyRatingIsZero` | MovieQuiz/Services/QuestionFactory.swift:54 | an empty rating does not parse and is taken as 0 |
| `Questions.Threshold` | MovieQuiz/Services/QuestionFactory.swift:55 | the chosen threshold is always 7, 8 or 9 |
| `Questions.ComparisonWord` | MovieQuiz/Services/QuestionFactory.swift:57 | the six-letter word is "больше" exactly when the random bool is true, and "меньше" exactly when it is false |
| `Questions.Prompt` | MovieQuiz/Services/QuestionFactory.swift:58 | the prompt is the fixed head, then the comparison word, then " чем ", then the threshold's numeral, then "?" |
| `Questions.CorrectAnswer` | MovieQuiz/Services/QuestionFactory.swift:59 | for "greater" the answer is `rating > threshold`, otherwise `rating < threshold`; a rating equal to the threshold is answered "no" both ways |
| `Questions.MakeQuestion` | MovieQuiz/Services/QuestionFactory.swift:54-63 | the question carries the fetched image unchanged, the prompt for the comparison and threshold drawn, and the correct answer for the parsed rating |
| `Questions.UnparsedRatingAnswer` | MovieQuiz/Services/QuestionFactory.swift:54-59 | a rating that does not parse gives "no" for "greater" and "yes" for "less" |
| `Questions.PromptRoundTrip` | MovieQuiz/Services/QuestionFactory.swift:57-58 | the prompt reads back as exactly its comparison ("больше" when greater, otherwise "меньше") and its threshold |
| `Questions.QuestionFactory.constructor` | MovieQuiz/Services/QuestionFactory.swift:13-18 | a new factory has an empty movie list |
| `Questions.QuestionFactory.LoadData` | MovieQuiz/Services/QuestionFactory.swift:20-33 | on success the movie list becomes the loaded items and "loaded" is announced; on failure the list is unchanged and the error is reported |
| `Questions.QuestionFactory.RequestNextQuestion` | MovieQuiz/Services/QuestionFactory.swift:35-70 | nothing is delivered exactly when the list is empty; a failure is reported exactly when the chosen movie's download fails, and it carries that download's own error; otherwise the question is built from that movie and carries the downloaded bytes |
| `Statistics.IntegerFor` | MovieQuiz/Services/StatisticServiceImplementation.swift:17-37 | a key holding an integer reads as that integer; a missing key reads as 0 |
| `Statistics.RecordFor` | MovieQuiz/Services/StatisticServiceImplementation.swift:56-64 | a stored record reads back; otherwise the best game reads as a record of 0 out of 0 |
| `Statistics.StatisticService.constructor` | MovieQuiz/Services/StatisticServiceImplementation.swift:16 | the service works over the store as earlier sessions left it |
| `Statistics.StatisticService.CorrectCount` | MovieQuiz/Services/StatisticServiceImplementation.swift:28-32 | the lifetime correct count reads as 0 before anything is written |
| `Statistics.StatisticService.TotalCount` | MovieQuiz/Services/StatisticServiceImplementation.swift:17-21 | the lifetime total count reads as 0 before anything is written |
| `Statistics.StatisticService.GamesPlayed` | MovieQuiz/Services/StatisticServiceImplementation.swift:45-49 | the games count reads as 0 before anything is written |
| `Statistics.StatisticService.BestGameRecord` | MovieQuiz/Services/StatisticServiceImplementation.swift:56-61 | with no stored best game, the best game is 0 out of 0 |
| `Statistics.StatisticService.SetCorrect` | MovieQuiz/Services/StatisticServiceImplementation.swift:34-36 | writes only the correct-count key; the value reads back and the other three values are unchanged |
| `Statistics.StatisticService.SetTotal` | MovieQuiz/Services/StatisticServiceImplementation.swift:23-25 | writes only the total-count key; the value reads back and the other three values are unchanged |
| `Statistics.StatisticService.SetGamesPlayed` | MovieQuiz/Services/StatisticServiceImplementation.swift:51-53 | writes only the games-count key; the value reads back and the other three values are unchanged |
| `Statistics.StatisticService.SetBestGame` | MovieQuiz/Services/StatisticServiceImplementation.swift:66-73 | writes only the best-game key; the record reads back and the three counters are unchanged |
| `Statistics.Accuracy` | MovieQuiz/Services/StatisticServiceImplementation.swift:42 | for a non-zero total, accuracy times total is correct times 100 |
| `Statistics.AccuracyIsPercentage` | MovieQuiz/Services/StatisticServiceImplementation.swift:40-43 | when `0 <= correct <= total`, the accuracy lies in `[0, 100]` |
| `Statistics.StatisticService.TotalAccuracy` | MovieQuiz/Services/StatisticServiceImplementation.swift:40-43 | requires a non-zero total; the lifetime accuracy is `correct / total * 100` and lies in `[0, 100]` while no more answers are correct than given |
| `Statistics.StatisticService.Store` | MovieQuiz/Services/StatisticServiceImplementation.swift:76-86 | adds the game's correct and total to the lifetime counts and one to the games count; the best game becomes the new record unless the stored best is better than it, and that holds for the best game read at any time; it keeps `0 <= correct <= total` when the game does |
| `Statistics.FirstGameAccuracy` | MovieQuiz/Services/StatisticServiceImplementation.swift:76-86 | on an empty store, storing 7 correct out of 10 gives accuracy 70 and one game played |

## Left out

- UIKit rendering is not modelled: the view controller, the alert presenter, the alert model, the button enabling, the decoding of the image into a `UIImage` with its `"xmark"` fallback, and the one-second delay before the next question.
- The view controller calls presenter members that MovieQuizPresenter.swift does not define: `didAnswer`, `showNextQuestionOrResults`, `restartGame`, `correctAnswers` and an `init(viewController:)`. The model has no score counting and no end-of-game logic.
- `Presentation.MovieQuizPresenter.YesButtonClicked`: the answer result is returned rather than sent through the weak `viewController` reference. The case where that reference is nil is not modelled.
- `Presentation.MovieQuizPresenter.NoButtonClicked`: the answer result is returned rather than sent through the weak `viewController` reference. The case where that reference is nil is not modelled.
- The `print("Failed to load image")` console message on a failed image download is not modelled, because it is console output only.
- Dispatch hops to the main and global queues, and the `[weak self]` guards, are not modelled. The factory works synchronously.
- Randomness, the network and image I/O are parameters. The model does not capture that the draws are uniform.
- `Questions.QuestionFactory.RequestNextQuestion`: `draw` is required to lie in `0..<movies.count` when the list is non-empty, because that is what `randomElement()` returns. The `?? 7` fallback of the threshold draw cannot be reached and is not modelled.
- `Questions.ParseRating` covers an optional sign, digits, and an optional decimal point followed by digits. Swift's `Float(String)` also accepts exponents, `inf`, `nan` and hexadecimal forms, and those are not modelled.
- Ratings and accuracy are exact `real` numbers. `Float` and `Double` rounding is not modelled.
- Counters and the question index are unbounded integers. The trap on Swift `Int` overflow is not modelled.
- `GameRecord.isBetterThan` and the `GameRecord` type are not part of this model. The order is an abstract function value.
- `Date()` is an opaque `now` parameter. `Statistics.StatisticService.Store` uses the same `now` both for the new record and for the default best game that the getter returns.
- UserDefaults persistence and the JSON encoding of `GameRecord` are modelled as an in-memory map. A stored value of the wrong kind reads as the default. The branch where encoding fails and the write is skipped is not modelled.
- `Statistics.StatisticService.TotalAccuracy`: requires a non-zero total. With a total of 0, the code's `Double` division (MovieQuiz/Services/StatisticServiceImplementation.swift:42) gives NaN or ±infinity, and the model leaves that case out. The only caller (MovieQuiz/Presentation/MovieQuizViewController.swift:72-77) stores a game of 10 answers before it reads the accuracy.
