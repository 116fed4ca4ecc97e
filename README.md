# Car quiz: the quiz-round state machine

A model of the one piece of logic in the car quiz app: the round state machine inside the
`CarQuizScreen` composable. The app shows a car picture, speaks a question about its model, and offers
four brand buttons: the correct brand and three decoys. An answer shows and speaks feedback. After a
3-second delay the app loads another car, never the one just shown.

The model consists of these modules:

- `Content` holds the static car table (image id, brand) and the brand list.
- `Collections` holds the Kotlin list operations the screen uses: `filter`, `take`, `takeLast`, and `shuffled()`. A shuffle's random order is passed in as a permutation of indices.
- `CarDraw` holds the repeat-avoiding `cars.random()` do-while loop of `loadNewCar`. The loop is specified by the position of the first draw that names a car other than the previous one. Random draws come from a caller-supplied stream of indices.
- `Speech` holds the strings handed to the speech engine. It covers the spoken question (`split("_")[0]`, then `replaceFirstChar { it.uppercase() }`) and the spoken feedback.
- `AnswerOptions` builds the four options and splits them into two rows of buttons.
- `Round` holds the session (the six state fields, the coroutines launched and not yet run, and the log of utterances), one transition function per action, and the invariant every reachable session keeps.
- `Screen` holds the class `CarQuizScreen`. Its fields are the state fields and its methods update them in place: `LoadNewCar` (whose rejection loop is the method `DrawOtherCar`), `StartGame`, `Answer` and `Advance`. Each method is proved to follow its `Round` transition. `StartGame`, `Answer` and `Advance` also keep the invariant. `LoadNewCar` only follows `Round.Loaded`: the invariant may fail partway through `StartGame` or `Advance`, right after `LoadNewCar` runs, so `LoadNewCar` neither requires nor ensures `Valid()`. Two client methods play one round.

`Advance` models the 3000 ms `delay` followed by `loadNewCar()`. It is an explicit action that is allowed only while a launched coroutine is pending. Both button rows use the same click handler (lines 172-188 and 214-230), so the model has one `Answer`.

## Model

| member | source | states |
|---|---|---|
| `Content.StaticTables` | app/src/main/java/com/example/carquiz/MainActivity.kt:65-77 | every car in the table has a different car to move to; the brand list has no repeats; every car's brand is listed, with at least three other brands |
| `Content.BrandsDistinct` | app/src/main/java/com/example/carquiz/MainActivity.kt:71-77 | the five listed brands are pairwise different |
| `Collections.Without` | app/src/main/java/com/example/carquiz/MainActivity.kt:156 | `filter { it != correctBrand }` keeps exactly the elements other than the correct brand; it keeps a repeat-free list repeat-free and drops exactly one element when the brand is listed |
| `Collections.WithoutMultiset` | app/src/main/java/com/example/carquiz/MainActivity.kt:156 | the filter keeps every other element as often as it occurs and drops every occurrence of the correct brand |
| `Collections.WithoutOfConcat` | app/src/main/java/com/example/carquiz/MainActivity.kt:156 | the filter keeps the order: filtering a concatenation concatenates the filtered parts; a one-element list is emptied exactly when its element is the correct brand |
| `Collections.Take` | app/src/main/java/com/example/carquiz/MainActivity.kt:156 | `take(n)` yields the first `min(n, size)` elements unchanged |
| `Collections.TakeLast` | app/src/main/java/com/example/carquiz/MainActivity.kt:212 | `takeLast(n)` yields the last `min(n, size)` elements unchanged |
| `Collections.TakeKeepsElements` | app/src/main/java/com/example/carquiz/MainActivity.kt:156 | a prefix holds only elements of the list and has no repeats if the list has none |
| `Collections.Permute` | app/src/main/java/com/example/carquiz/MainActivity.kt:156-157 | a shuffle keeps the length, holds exactly the same elements (both directions), and keeps a repeat-free list repeat-free |
| `Collections.PermuteMultiset` | app/src/main/java/com/example/carquiz/MainActivity.kt:156-157 | a shuffle is a permutation of its input: every element occurs in the result exactly as often as in the input |
| `Collections.RearrangedMultiset` | app/src/main/java/com/example/carquiz/MainActivity.kt:156-157 | any list holding `s[p[i]]` at each position `i`, for a permutation `p`, has the multiset of `s` (proved by induction, moving the last element back) |
| `Collections.PermutationIsOnto` | app/src/main/java/com/example/carquiz/MainActivity.kt:156-157 | a shuffle order of `n` indices hits every index below `n` (pigeonhole), so no element is lost |
| `CarDraw.FirstAcceptedFrom` | app/src/main/java/com/example/carquiz/MainActivity.kt:89-92 | the loop exits at the first draw naming a car other than the previous one; every earlier draw repeated the previous car; there is no exit exactly when every remaining draw repeats it |
| `CarDraw.NoOtherCarNeverStops` | app/src/main/java/com/example/carquiz/MainActivity.kt:89-92 | with no car other than the previous one (a one-entry table), no random stream ends the loop |
| `CarDraw.OtherCarStops` | app/src/main/java/com/example/carquiz/MainActivity.kt:89-92 | a stream that draws another car ends the loop at or before that draw; a stream drawing that car first ends it at once |
| `CarDraw.LoopCanEndIff` | app/src/main/java/com/example/carquiz/MainActivity.kt:89-92 | some random stream ends the loop if and only if the table holds a car other than the previous one |
| `Speech.ModelName` | app/src/main/java/com/example/carquiz/MainActivity.kt:270 | `split("_")[0]` is a prefix of the id without underscores, and it is followed by an underscore or by the end of the id |
| `Speech.ModelNameBeforeFirstUnderscore` | app/src/main/java/com/example/carquiz/MainActivity.kt:270 | the model name is exactly the part of the id before its first underscore |
| `Speech.Capitalize` | app/src/main/java/com/example/carquiz/MainActivity.kt:270 | `replaceFirstChar { it.uppercase() }`: the first character, if any, replaced by its upper case; its properties are stated by `Speech.CapitalizeFacts` |
| `Speech.UpperCase` | app/src/main/java/com/example/carquiz/MainActivity.kt:270 | a lower-case letter becomes the matching upper-case letter; any other character is kept |
| `Speech.CapitalizeFacts` | app/src/main/java/com/example/carquiz/MainActivity.kt:270 | `replaceFirstChar { it.uppercase() }` keeps the length and every character after the first, makes the first character the upper case of the original first character, leaves no lower-case first letter, and is idempotent |
| `Speech.Prompt` | app/src/main/java/com/example/carquiz/MainActivity.kt:270-271 | the question `speakCarModel` speaks for a car id; its shape is stated by `Speech.PromptNamesModel` |
| `Speech.PromptNamesModel` | app/src/main/java/com/example/carquiz/MainActivity.kt:270-271 | the question is "Qual a marca do ", then the capitalized model name, then "?"; the name can be read back out of it |
| `Speech.PromptJeep` | app/src/main/java/com/example/carquiz/MainActivity.kt:270-271 | `jeep_jeep` is asked as "Qual a marca do Jeep?" |
| `Speech.PromptCelta` | app/src/main/java/com/example/carquiz/MainActivity.kt:270-271 | `celta_chevrolet` is asked as "Qual a marca do Celta?" |
| `Speech.PromptOf` | app/src/main/java/com/example/carquiz/MainActivity.kt:270-271 | an id whose first underscore follows `name` is asked about `name` capitalized |
| `Speech.SpokenFeedback` | app/src/main/java/com/example/carquiz/MainActivity.kt:175-178 | the two spoken messages, right and wrong, naming the uncapitalized model and the correct brand; its opening, model name and brand suffix are stated by `Speech.SpokenFeedbackNamesBrand` |
| `Speech.SpokenFeedbackNamesBrand` | app/src/main/java/com/example/carquiz/MainActivity.kt:175-178 | the spoken feedback opens with its fixed words, names the uncapitalized model right after them and ends with the correct brand, whether the answer was right or wrong; the right and wrong messages differ |
| `AnswerOptions.BuildOptions` | app/src/main/java/com/example/carquiz/MainActivity.kt:156-157 | the options number the decoys kept plus one; they contain the correct brand; every other option is a listed brand; they have no repeats when the brand list has none |
| `AnswerOptions.FourDistinctOptions` | app/src/main/java/com/example/carquiz/MainActivity.kt:156-157 | with a repeat-free brand list and at least three other brands, there are exactly four distinct options: the correct brand at exactly one position and listed, wrong brands at the other three |
| `AnswerOptions.ButtonRows` | app/src/main/java/com/example/carquiz/MainActivity.kt:170-212 | for four options, the `take(2)` row followed by the `takeLast(2)` row is exactly the option list |
| `AnswerOptions.OneButtonPerOption` | app/src/main/java/com/example/carquiz/MainActivity.kt:170-212 | with four distinct options, each option is in exactly one of the two rows, and nothing else is in either row |
| `AnswerOptions.StaticRoundOptions` | app/src/main/java/com/example/carquiz/MainActivity.kt:156-157 | with the app's own tables, every car's round offers four distinct brands including its own |
| `Round.CorrectFeedback` | app/src/main/java/com/example/carquiz/MainActivity.kt:176 | the label for a right answer, "Correto! A marca é " followed by the correct brand |
| `Round.WrongFeedback` | app/src/main/java/com/example/carquiz/MainActivity.kt:179 | the label for a wrong answer, "Errado! A marca correta é " followed by the correct brand |
| `Round.FeedbackText` | app/src/main/java/com/example/carquiz/MainActivity.kt:174-180 | the feedback is "Correto! A marca é X" exactly when the answer is right and "Errado! A marca correta é X" exactly when it is wrong; it always ends with X, the correct brand |
| `Round.Answered` | app/src/main/java/com/example/carquiz/MainActivity.kt:172-188 | once `timeUp` is set an answer changes nothing; otherwise it sets `timeUp`, launches one more delayed load, sets the feedback according to whether the brand is right, and leaves the car, brand and game flag alone |
| `Round.Initial` | app/src/main/java/com/example/carquiz/MainActivity.kt:80-85 | the session the `remember` initialisers create from the first random car; its invariant is `Round.InitialConsistent` |
| `Round.Loaded` | app/src/main/java/com/example/carquiz/MainActivity.kt:94-99 | the state updates of `loadNewCar` once its loop has settled on a car; stated by `Round.LoadedShowsQuestion` |
| `Round.Started` | app/src/main/java/com/example/carquiz/MainActivity.kt:103-106 | `startGame`: set `gameStarted`, then load; its invariant is `Round.StartedConsistent` |
| `Round.Advanced` | app/src/main/java/com/example/carquiz/MainActivity.kt:184-187 | the launched coroutine running `loadNewCar`, one pending load fewer; its invariant is `Round.AdvancedConsistent` |
| `Round.Consistent` | app/src/main/java/com/example/carquiz/MainActivity.kt:80-99 | the invariant of every reachable session: the shown car is in the table and equals the previous car, the correct brand is its brand, feedback is non-empty exactly while `timeUp` is set, and one load is pending exactly then |
| `Round.InitialConsistent` | app/src/main/java/com/example/carquiz/MainActivity.kt:80-85 | the initial session (a random car, its brand, empty feedback, no `timeUp`, previous car equal to the shown car) satisfies the invariant |
| `Round.StartedConsistent` | app/src/main/java/com/example/carquiz/MainActivity.kt:103-106 | starting the game keeps the invariant and sets `gameStarted` |
| `Round.AnsweredConsistent` | app/src/main/java/com/example/carquiz/MainActivity.kt:172-188 | answering keeps the invariant: at most one delayed load is ever pending, and only while `timeUp` is set |
| `Round.AdvancedConsistent` | app/src/main/java/com/example/carquiz/MainActivity.kt:184-187 | the delayed load keeps the invariant |
| `Round.SecondAnswerHasNoEffect` | app/src/main/java/com/example/carquiz/MainActivity.kt:173 | a second answer before the delayed load changes no state and launches no second load, whatever brand it names |
| `Round.AnswerAnnouncesResult` | app/src/main/java/com/example/carquiz/MainActivity.kt:173-181 | answering a fresh question sets `timeUp`, leaves exactly one load pending, shows the right-or-wrong text naming the correct brand, and speaks the matching message |
| `Round.LoadedShowsQuestion` | app/src/main/java/com/example/carquiz/MainActivity.kt:94-99 | after a load, the selected car and the previous car are both the new car, the correct brand is its brand, the feedback is empty, `timeUp` is clear, and the new car's question was the last thing spoken |
| `Round.RoundMovesToAnotherCar` | app/src/main/java/com/example/carquiz/MainActivity.kt:184-187 | answering and letting the delay run gives an unanswered question about a car other than the answered one |
| `Round.ConsistentSessionHasFourOptions` | app/src/main/java/com/example/carquiz/MainActivity.kt:155-157 | in every reachable session the options are four distinct brands including the correct one |
| `Screen.CarQuizScreen.constructor` | app/src/main/java/com/example/carquiz/MainActivity.kt:80-85 | the `remember` initialisers: the first random car is shown and is also the previous car, with its brand, no feedback, `timeUp` clear and the game not started |
| `Screen.DrawOtherCar` | app/src/main/java/com/example/carquiz/MainActivity.kt:89-92 | the do-while loop returns a car other than the previous one, namely the car of the first draw that differs from it |
| `Screen.CarQuizScreen.LoadNewCar` | app/src/main/java/com/example/carquiz/MainActivity.kt:88-100 | the new car differs from the previous car and is the first such car drawn; the state then becomes that of a load of that car |
| `Screen.CarQuizScreen.StartGame` | app/src/main/java/com/example/carquiz/MainActivity.kt:103-106 | starting sets `gameStarted` and loads a car different from the initial random pick; the invariant holds afterwards |
| `Screen.CarQuizScreen.Answer` | app/src/main/java/com/example/carquiz/MainActivity.kt:172-188 | the click handler follows `Round.Answered` and keeps the invariant |
| `Screen.CarQuizScreen.Advance` | app/src/main/java/com/example/carquiz/MainActivity.kt:184-187 | the delayed coroutine loads a car different from the one just answered, following `Round.Advanced`, and keeps the invariant |
| `Screen.StartAndAnswer` | app/src/main/java/com/example/carquiz/MainActivity.kt:103-106 | a client: starting on the jeep, a draw repeating the jeep is rejected, the Chevrolet is shown, and a right answer sets `timeUp` |
| `Screen.TapAgainThenAdvance` | app/src/main/java/com/example/carquiz/MainActivity.kt:184-187 | a client continuing that round: a second tap is ignored, and the delayed load, after rejecting a repeated draw, shows the jeep with `timeUp` clear and no feedback |

## Left out

- Text-to-speech is left out: creating the engine, `onInit` and its locale, `QUEUE_FLUSH` interruption, and shutdown in `onDestroy`. These are platform calls with no result the screen observes. Utterances are kept only as an appended log of strings, `spoken`.
- Image lookup is left out: `getImageResource`, `painterResource`, and the `marca_<brand>` logo names. These are platform resource lookups.
- Compose layout, colours, sizes, and the visibility of the start button and the feedback label are left out. The only effect the model keeps from visibility is this: `StartGame` may be called only before the game starts, and `Answer` only after it starts.
- Coroutine scheduling and the real 3000 ms delay are not modelled. A launched load is counted in `pendingAdvances` and runs when `Advance` is called.
- The probability distribution of `random()` and `shuffled()` is left out. Draws come from a caller-supplied stream of indices, and shuffles from caller-supplied permutations. Every permutation is allowed, but how likely each one is does not matter here.
- Options are not stored in the state. The source recomputes them on every recomposition, so the model gives them as a function of `correctBrand` and the two shuffle orders.
- `Screen.CarQuizScreen.LoadNewCar` does not model an endless loop. It requires a random stream that contains a draw ending the loop. A stream without one would make the source loop forever, and so would every stream when the table holds no other car. `CarDraw.LoopCanEndIff` and `CarDraw.NoOtherCarNeverStops` state when such a stream exists.
- `Speech.UpperCase` maps only `a`..`z`. Kotlin's `Char.uppercase()` also maps other Unicode letters, and may return more than one character. The car ids in the table use only ASCII.
