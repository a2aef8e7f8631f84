# English-teaching web app: a Dafny model of its game and lesson logic

The app teaches English to young Vietnamese learners. It has lessons made of
slide decks and exercise pages, a set of classroom games and some helper
scripts. This project models the logic behind them in Dafny and proves what
that logic promises:

- **Grid engines.** The candy-crush board (`candy_crush.dfy`) covers run
  detection, column drop and refill, the cascade loop, the adjacency-checked
  swap with undo, and move accounting. The bubble board (`bubble_board.dfy`,
  `bubble_shooter.dfy`) covers flood-fill clearing of same-colour clusters,
  gravity, the chain loop and shot accounting.
- **Answer checking and grading.** Text normalisation (`text.dfy`,
  `answers.dfy`), percentage scores (`grading.dfy`), the reading-comprehension,
  exercise and assessment slides, and the listening embeds. The listening
  embeds include the case-insensitive edit distance and its similarity score.
- **Per-game flows.** Two anagram games, unjumble, memory, matching, image
  reveal, picture choice and typing, listening typing, the classic quiz,
  cloze and multiple choice. Each is a class whose fields are the
  component's state and whose methods are its handlers. A delayed
  continuation (`setTimeout`) is a separate method called later.
- **Slide navigation.** Modular next and previous, the outline toggle,
  keyboard and swipe rules, and the `slide` URL parameter.
- **Stores.** The game, audio, theme, language, flashcard, auth and
  text-to-speech stores, as record-to-record functions that change only
  their own field.
- **Helpers and scripts.**
  - Lesson access filtering, the default route and the game registry.
  - Media URL extraction, parent paths, YouTube ids, the school filter and
    the lesson editor's list edits.
  - The image-generation CLIs in `generate_image.py` and `generate_image.js`.
  - The R2 upload script and the translation-key collector.

Randomness (`Math.random` shuffles and picks) is a nondeterministic choice
in the methods, and every property holds for every choice. Clocks, timers,
service responses, file contents, stored users and server data are
parameters of the operations that read them.

## Model

| member | source | states |
|---|---|---|
| GameStore.IncreaseScore | src/lib/stores/game.store.ts:20-22 | only the score moves, by exactly the given amount |
| GameStore.AnswerCorrect | src/lib/stores/game.store.ts:25-31 | one more correct answer and ten more points; the other counters are kept |
| GameStore.AnswerIncorrect | src/lib/stores/game.store.ts:34-39 | one more incorrect answer and nothing else changes |
| GameStore.SetTotalQuestions | src/lib/stores/game.store.ts:42-46 | only the question total changes, to the given value |
| GameStore.ResetGame | src/lib/stores/game.store.ts:49-56 | every counter is zero, the store's initial value |
| GameStore.ScoreAccounting | src/lib/stores/game.store.ts:12-56 | after any run of actions from the initial store, score = 10 × correct answers + the `increaseScore` amounts since the last reset |
| GameStore.CountersNeverNegative | src/lib/stores/game.store.ts:12-56 | the correct and incorrect counters never go below zero |
| AudioStore.Load | src/lib/stores/audio.store.ts:12-28 | saved settings are used when they parse; otherwise music and effects are on at volumes 0.3 and 0.6 |
| AudioStore.Clamp | src/lib/stores/audio.store.ts:67 | `max(0, min(1, v))` lies in [0, 1], is `v` inside that range and the nearer bound outside it |
| AudioStore.ToggleBackgroundMusic | src/lib/stores/audio.store.ts:48-53 | flips the music switch and keeps the other three fields |
| AudioStore.ToggleSoundEffects | src/lib/stores/audio.store.ts:56-61 | flips the effects switch and keeps the other three fields |
| AudioStore.SetBackgroundMusicVolume | src/lib/stores/audio.store.ts:64-69 | the music volume becomes the clamped value, in [0, 1]; nothing else changes |
| AudioStore.SetSoundEffectsVolume | src/lib/stores/audio.store.ts:72-77 | the effects volume becomes the clamped value, in [0, 1]; nothing else changes |
| AudioStore.TogglesAreInvolutions | src/lib/stores/audio.store.ts:48-61 | toggling either switch twice restores the state |
| AudioStore.VolumeSettersOverwrite | src/lib/stores/audio.store.ts:64-77 | setting a volume twice keeps only the second value |
| ThemeStore.SystemTheme | src/lib/stores/theme.store.ts:25-32 | the system theme is Dark exactly when the browser prefers dark, and never System |
| ThemeStore.SetSelectedTheme | src/lib/stores/theme.store.ts:35-44 | the selected theme is stored; the theme in effect is that theme, or the system theme for System |
| ThemeStore.ToggleTheme | src/lib/stores/theme.store.ts:47-56 | Light goes to Dark, Dark and System go to Light, and the theme in effect equals the new selection |
| ThemeStore.ActualNeverSystem | src/lib/stores/theme.store.ts:12-56 | no sequence of actions makes System the theme in effect |
| ThemeStore.InitialValid | src/lib/stores/theme.store.ts:19-22 | the store starts with System selected and a theme in effect that is not System |
| ThemeStore.ToggleTwice | src/lib/stores/theme.store.ts:47-56 | from Light or Dark, toggling twice returns to the same state |
| LangStore.SetSelectedLang | src/lib/stores/lang.store.ts:21-25 | the language becomes exactly the given one |
| LangStore.ToggleLang | src/lib/stores/lang.store.ts:28-33 | the language always changes (EN and VI swap) |
| LangStore.ToggleLangTwice | src/lib/stores/lang.store.ts:28-33 | toggling twice is the identity |
| LangStore.T | src/lib/stores/lang.store.ts:36-44 | the selected language's translation when it is non-empty, otherwise the key itself |
| LangStore.TNeverBlank | src/lib/stores/lang.store.ts:36-44 | a non-empty key never translates to the empty string |
| FlashcardStore.ToggleInitialSide | src/lib/stores/flashcard.store.ts:15-20 | front and back swap; the sound switch is kept |
| FlashcardStore.ToggleSound | src/lib/stores/flashcard.store.ts:22-27 | the sound switch flips; the initial side is kept |
| FlashcardStore.TogglesAreInvolutions | src/lib/stores/flashcard.store.ts:15-27 | each toggle undoes itself |
| FlashcardStore.TogglesCommute | src/lib/stores/flashcard.store.ts:15-27 | the two toggles touch different fields, so their order does not matter |
| AuthStore.SetUser | src/lib/stores/auth.store.ts:19-25 | stores the user, sets the logged-in flag to whether there is one, keeps the loading flag |
| AuthStore.SetLoading | src/lib/stores/auth.store.ts:28-33 | only the loading flag changes |
| AuthStore.Logout | src/lib/stores/auth.store.ts:36-42 | no user, not loading, not logged in |
| AuthStore.LoggedInIffUser | src/lib/stores/auth.store.ts:12-42 | logged in exactly when a user is present, after any sequence of actions |
| AuthStore.InitialValid | src/lib/stores/auth.store.ts:12-16 | the store starts loading, without a user and logged out |
| TtsStore.LoadSettings | src/lib/stores/tts.store.ts:13-22 | each stored field overrides its default ('Aaron', 1.0); a missing field or unreadable storage gives the default |
| TtsStore.SetVoice | src/lib/stores/tts.store.ts:30-35 | only the voice changes |
| TtsStore.SetRate | src/lib/stores/tts.store.ts:37-42 | only the rate changes |
| TtsStore.LoadSaved | src/lib/stores/tts.store.ts:13-28 | saving the settings and loading them back gives the same settings |
| RouteHelpers.DefaultRoute | src/lib/utils/route-helpers.ts:9-25 | `/lessons` exactly when a stored user's role lower-cases to `student`; `/dashboard` otherwise, including without a user or role |
| LessonHelpers.Permits | src/lib/utils/lesson-helpers.ts:54-64 | true exactly when some allowed entry has the same course, unit and lesson |
| LessonHelpers.HasLessonAccess | src/lib/utils/lesson-helpers.ts:70-104 | no user: denied; Admin or Teacher: granted; a named Student: granted exactly when the configuration exists and lists the lesson; any other user: denied |
| LessonHelpers.FilterLessonsByUser | src/lib/utils/lesson-helpers.ts:112-142 | no user: nothing; staff and other roles: every lesson; a named Student: nothing without a configuration, otherwise exactly the allowed lessons in their original order, each as often as it occurs |
| LessonHelpers.ListedIffAccessible | src/lib/utils/lesson-helpers.ts:70-142 | for a named student with a configuration, a lesson is listed exactly when it may be opened |
| LessonHelpers.ListedButLocked | src/lib/utils/lesson-helpers.ts:100-104 | a user of another role, or a student without a name, sees every lesson listed but may open none |
| Sublists.Filter | src/lib/utils/lesson-helpers.ts:131-133 | `filter` keeps exactly the entries that pass, in their order, and no more entries than it was given |
| Sublists.FilterMultiset | src/lib/utils/lesson-helpers.ts:131-133 | `filter` keeps each passing value as often as it occurs and drops every other value |
| Sublists.CountIsFilterLength | src/routes/demo/schools.tsx:240 | counting the entries that pass equals the length of the filtered list |
| ParentPath.Substring | src/lib/components/ui/HomeButton.tsx:8 | `substring` with bounds inside the string is the slice between them |
| ParentPath.Parent | src/lib/components/ui/HomeButton.tsx:8 | the path up to (not including) its last `/`, or empty when there is none; what is cut holds no `/` |
| ParentPath.LinkTarget | src/lib/components/ui/HomeButton.tsx:12 | the parent path when it is non-empty, otherwise `/` |
| ParentPath.DropsLastSegment | src/lib/components/presentation/ActivityControls.tsx:65 | the parent of `p/segment` is `p` |
| ParentPath.TrailingSlash | src/lib/components/presentation/ActivityControls.tsx:65 | a trailing slash only drops the empty last segment |
| ParentPath.TopLevelLinksToRoot | src/lib/components/presentation/ActivityControls.tsx:69 | `segment` and `/segment` both link to the root |
| YouTube.LineEnd | src/lib/components/activities/YoutubeSlide.tsx:13-14 | the first line break (or the end), which bounds how far `^.*` reaches |
| YouTube.LastMarker | src/lib/components/activities/YoutubeSlide.tsx:13-15 | the last position where one of the six marker alternatives starts, as the greedy `.*` finds it, or none |
| YouTube.FreeRun | src/lib/components/activities/YoutubeSlide.tsx:13-14 | the longest run free of `#`, `&` and `?` |
| YouTube.VideoIdShape | src/lib/components/activities/YoutubeSlide.tsx:12-17 | a returned id has 11 characters, none of them `#`, `&` or `?`, and sits right after the last marker on the first line |
| YouTube.NoMarkerNoId | src/lib/components/activities/YoutubeSlide.tsx:15-16 | without a marker on the first line the result is null |
| YouTube.MarkerThenId | src/lib/components/activities/YoutubeSlide.tsx:15-16 | an 11-character run after the last marker is returned as the id |
| YouTube.DotMatchesAnyCharacter | src/lib/components/activities/YoutubeSlide.tsx:13-14 | the unescaped `.` of `youtu.be/` matches any character but a line break |
| Schools.FilteredSchools | src/routes/demo/schools.tsx:152-160 | exactly the schools whose name or address contains the search text ignoring case and whose status matches the chosen one, in list order, each as often as it occurs |
| Schools.EmptyFiltersKeepAll | src/routes/demo/schools.tsx:152-160 | an empty search and no chosen status list every school |
| Schools.StatusColor | src/routes/demo/schools.tsx:72-74 | green exactly for `Active`, orange otherwise |
| Schools.ActiveCount | src/routes/demo/schools.tsx:240 | the number of schools whose status is `Active` |
| Schools.ActiveIsGreen | src/routes/demo/schools.tsx:72-74 | a school is shown green exactly when it is counted as active |
| MediaPreloader.Present | src/lib/utils/media-preloader.ts:53-55 | a field gives its address exactly when it is present and non-empty |
| MediaPreloader.BlockImage | src/lib/utils/media-preloader.ts:89-91 | a content block gives one address exactly when it is an image block with a non-empty source |
| MediaPreloader.GatherNonEmpty | src/lib/utils/media-preloader.ts:59-63 | when no entry gives an empty address, the gathered list holds none |
| MediaPreloader.GatherCount | src/lib/utils/media-preloader.ts:59-63 | with at most one address per entry, the list is as long as the number of entries that give one |
| MediaPreloader.ExtractImageUrls | src/lib/utils/media-preloader.ts:49-98 | the background, then vocabulary, question and reading-slide pictures, then the image blocks of the pages, in order |
| MediaPreloader.AppendSection | src/lib/utils/media-preloader.ts:58-64 | an absent section adds nothing; a present one adds its entries' addresses in order |
| MediaPreloader.AppendPages | src/lib/utils/media-preloader.ts:85-95 | the nested loop adds each page's image blocks, page after page |
| MediaPreloader.AppendEach | src/lib/utils/media-preloader.ts:59-63 | one `forEach` appends each entry's addresses in order |
| MediaPreloader.ExtractAudioUrls | src/lib/utils/media-preloader.ts:103-128 | each word's pronunciation then its sentence's, then the reading slides' audio, in order |
| MediaPreloader.ImageUrlsNonEmpty | src/lib/utils/media-preloader.ts:49-98 | no collected picture address is empty |
| MediaPreloader.AudioUrlsNonEmpty | src/lib/utils/media-preloader.ts:103-128 | no collected sound address is empty |
| MediaPreloader.VocabImagesCounted | src/lib/utils/media-preloader.ts:58-64 | the vocabulary section alone contributes one picture per item that has one, repeats kept; the other sections are not counted |
| MediaPreloader.EmptyLessonNoMedia | src/lib/utils/media-preloader.ts:49-128 | a lesson without background or sections names no media |
| GameRegistry.ComponentRegistered | src/lib/components/games/index.ts:33-131 | every component a menu entry names is a key of `gameComponents` |
| GameRegistry.HasImages | src/lib/components/games/index.ts:52-54 | true exactly when some word has a picture that is not blank after trimming |
| GameRegistry.MenuRising | src/lib/components/games/index.ts:56-131 | the menu lists the games in the order they are filed |
| GameRegistry.MenuMembers | src/lib/components/games/index.ts:107-131 | the picture games are on the menu exactly when there are pictures; the cloze game exactly when there is cloze data |
| GameRegistry.RisingDistinct | src/lib/components/games/index.ts:56-131 | a menu filed in rising order names no game twice |
| GameRegistry.GameInfo | src/lib/components/games/index.ts:49-134 | nine base games first, three picture games exactly when some word has a picture, the cloze game exactly when there is cloze data; no game twice; every component resolves |
| JsNumber.DigitRun | src/routes/lessons/everybody-up-0/unit-1/presentation.tsx:136 | `parseInt` reads the longest run of digits of its base, stopping at the first other character |
| JsNumber.ReadDigits | src/routes/lessons/everybody-up-0/unit-1/presentation.tsx:136 | a number is read exactly when the text starts with a digit of the base |
| JsNumber.DigitRunStops | src/routes/lessons/everybody-up-0/unit-1/presentation.tsx:136 | the digit run ends where the digits end |
| JsNumber.DecimalMagnitude | src/routes/lessons/everybody-up-0/unit-1/presentation.tsx:136 | the decimal form of a number is read in base 10 back to that number |
| JsNumber.ParseIntOfNatToString | src/routes/lessons/everybody-up-0/unit-1/presentation.tsx:136 | `parseInt` of a number's decimal form, followed by anything that does not continue it, is that number |
| JsNumber.ParseIntNegative | src/routes/lessons/everybody-up-0/unit-1/presentation.tsx:136 | a leading minus sign negates the number |
| JsNumber.ParseIntNoDigit | src/routes/lessons/everybody-up-0/unit-1/presentation.tsx:136 | text starting with anything but a digit, sign or white space is NaN |
| Shuffle.Shuffle | src/lib/components/activities/AnagramGame.tsx:99-106 | for every choice of the random positions, the shuffled copy is a permutation of the input |
| Shuffle.SwapPermutes | src/lib/components/activities/AnagramGame.tsx:103 | exchanging two entries keeps the multiset of entries |
| Shuffle.ShuffleTake | src/lib/components/activities/AnagramGame.tsx:126-127 | the first `n` of a shuffled copy: `min(n, length)` entries drawn from the input without repetition |
| Shuffle.MapPermute | src/lib/components/activities/AnagramGame.tsx:126-127 | mapping a permutation gives a permutation of the mapped list |
| Text.TrimStart | src/lib/components/activities/ReadingComprehensionSlide.tsx:134 | a suffix of the input that starts with a non-space, everything cut off being white space |
| Text.TrimEnd | src/lib/components/activities/ReadingComprehensionSlide.tsx:134 | a prefix of the input that ends with a non-space, everything cut off being white space |
| Text.Trim | src/lib/components/activities/ReadingComprehensionSlide.tsx:134 | `trim()` is no longer than its input and has no white space at either end |
| Text.TrimOfUnpadded | src/lib/components/activities/ReadingComprehensionSlide.tsx:134 | text without white space at its ends is left as it is |
| Text.TrimIdempotent | src/lib/components/activities/ReadingComprehensionSlide.tsx:134 | trimming twice is trimming once |
| Text.TrimAllSpace | src/lib/components/games/CandyCrushEnglishGame.tsx:818 | text of white space only trims to empty |
| Text.ToLower | src/lib/components/activities/ReadingComprehensionSlide.tsx:134 | `toLowerCase()` lowers every character, one for one |
| Text.ToUpper | src/lib/components/activities/AnagramGame.tsx:194 | `toUpperCase()` raises every character, one for one |
| Text.ToLowerHasNoUpper | src/lib/components/activities/ReadingComprehensionSlide.tsx:134 | a lowered string holds no upper-case letter |
| Text.ToLowerIdempotent | src/lib/components/activities/ReadingComprehensionSlide.tsx:134 | lowering twice is lowering once |
| Text.ToLowerAppend | src/lib/components/activities/AnagramGame.tsx:239-241 | lowering works piece by piece |
| Text.LowerCharSpace | src/lib/components/activities/ReadingComprehensionSlide.tsx:134 | changing case does not change which characters are white space, so trimming and lowering commute |
| Text.Keep | public/embed/multitple-intelligence-theory/listening/script.js:128-133 | `replace(/[^…]/g, '')` keeps exactly the accepted characters, in order, and adds none |
| Text.KeepPreserves | public/embed/multitple-intelligence-theory/listening/script.js:128-133 | a property every character has, every kept character has |
| Text.KeepAll | public/embed/multitple-intelligence-theory/listening/script.js:128-133 | text of accepted characters only is left as it is |
| Text.KeepIdempotent | public/embed/multitple-intelligence-theory/listening/script.js:128-133 | filtering twice is filtering once |
| Text.KeepAppend | public/embed/multitple-intelligence-theory/listening/script.js:128-133 | filtering works piece by piece |
| Text.KeepNone | public/embed/multitple-intelligence-theory/listening/script.js:128-133 | nothing is kept of text whose every character is rejected |
| Text.Without | src/lib/components/activities/ReadingComprehensionSlide.tsx:204 | `filter(key => key !== itemKey)` removes every copy of the key and keeps every other entry with its multiplicity |
| Text.ContainsAt | src/routes/demo/schools.tsx:154-155 | `includes` holds when the text occurs at some position |
| Text.ContainsEmpty | src/routes/demo/schools.tsx:154-155 | every string includes the empty string |
| Text.IndexOf | src/lib/components/games/AnagramGame.tsx:162 | the first position of a character that occurs |
| Text.LastIndexOf | src/lib/components/ui/HomeButton.tsx:8 | `lastIndexOf` is the last position of the character, or -1 exactly when it does not occur |
| Text.PieceEnd | scripts/upload-to-r2.js:47 | the first piece of `split` ends at the first separator, or at the end |
| Text.PieceEndAll | scripts/upload-to-r2.js:47 | without a separator the first piece is the whole text |
| Text.SplitSingle | scripts/upload-to-r2.js:47 | `split` gives one piece exactly when the separator does not occur |
| Text.JoinSplit | scripts/upload-to-r2.js:50-53 | joining the pieces of `split` with the same separator gives the text back |
| Text.PieceEndAfter | scripts/upload-to-r2.js:47 | the first separator of `a + sep + b`, with none in `a`, is the one after `a` |
| Text.SplitAtFirst | scripts/upload-to-r2.js:47 | splitting `a + sep + b` with no separator in `a` gives `a` followed by the pieces of `b` |
| Text.PieceEndPrefix | scripts/upload-to-r2.js:47 | a separator inside `a` ends the first piece whatever follows |
| Text.SplitPrefix | scripts/upload-to-r2.js:47 | a first piece ending inside `a` is split off before what follows |
| Text.SplitConcat | scripts/upload-to-r2.js:107 | splitting at a separator splits the two sides apart, so appending a line appends a piece |
| Text.SplitJoin | collect-translations.js:34 | pieces free of the separator are recovered by splitting their join |
| Text.NatToString | src/lib/components/activities/AnagramGame.tsx:77 | the decimal digits of a natural number, at least one |
| Text.PadStartZero | src/lib/components/activities/AnagramGame.tsx:77 | `padStart(width, '0')` is at least `width` long and ends with the input |
| Answers.TrimLower | src/lib/components/activities/ReadingComprehensionSlide.tsx:134 | `trim().toLowerCase()`: no longer than the input, no upper-case letter, no white space at either end |
| Answers.TrimLowerIdempotent | src/lib/components/activities/ReadingComprehensionSlide.tsx:134 | normalising twice is normalising once |
| Answers.UpperThenLower | src/lib/components/activities/AnagramGame.tsx:239-241 | lowering an upper-cased string equals lowering the original, so upper-case slots compare with the lowered answer |
| Answers.TrimPadded | src/lib/components/activities/ReadingComprehensionSlide.tsx:134 | trimming removes exactly the white-space padding around an unpadded string |
| Answers.StripDotAndQuestion | src/routes/lessons/everybody-up-0/unit-1/Slide10.tsx:15 | `replace(/[.?]/g, '')` leaves no `.` or `?` and keeps every other character |
| Answers.SlideUserForm | src/routes/lessons/everybody-up-0/unit-1/Slide10.tsx:12-15 | the typed side: trimmed, lowered, without `.` and `?` |
| Answers.SlideExpectedForm | src/routes/lessons/everybody-up-0/unit-1/Slide10.tsx:16 | the expected side: lowered, without `.` and `?`, not trimmed |
| Answers.AlnumForm | public/embed/multitple-intelligence-theory/listening/script.js:126-133 | trimmed, lowered, only lower-case letters, digits and spaces left |
| Answers.LettersAndSpaces | src/lib/components/games/ListeningSentenceTypingGame.tsx:173 | `replace(/[^a-z\s]/g, '')` leaves only lower-case letters and white space |
| Answers.UpperUnpadded | src/lib/components/games/CandyCrushEnglishGame.tsx:455-456 | upper-casing keeps a string unpadded |
| Answers.TypedMatchesOwnAnswer | src/lib/components/games/CandyCrushEnglishGame.tsx:455-456 | the expected answer typed with any white-space padding, in its own or upper case, is accepted |
| Answers.SlideAnswerVariants | src/routes/lessons/everybody-up-0/unit-1/Slide10.tsx:11-17 | the expected answer typed with padding, lowered, or followed by `.` and `?` is accepted; so is the answer against an expected answer ending in `.` or `?` |
| Answers.LoweredTyped | src/routes/lessons/everybody-up-0/unit-1/Slide10.tsx:11-17 | the lowered expected answer with padding and trailing punctuation normalises to the expected form |
| Answers.ExpectedPunctuation | src/routes/lessons/everybody-up-0/unit-1/Slide10.tsx:11-17 | the expected answer's own trailing `.` and `?` do not matter |
| Answers.StrippedLower | src/routes/lessons/everybody-up-0/unit-1/Slide10.tsx:15-16 | trailing `.` and `?` vanish from the lowered, stripped form |
| Answers.TypedForm | src/routes/lessons/everybody-up-0/unit-1/Slide10.tsx:12-15 | a padded, punctuated unpadded string normalises to its lowered, stripped form |
| Grading.Record | src/lib/components/activities/ReadingComprehensionSlide.tsx:116-132 | `create*Record` maps exactly the given ids, each to the given initial value |
| Grading.Ids | src/lib/components/activities/ReadingComprehensionSlide.tsx:116-120 | the question ids in question order |
| Grading.EmptyNeverExact | src/lib/components/activities/ReadingComprehensionSlide.tsx:223-227 | a freshly reset (empty) answer never satisfies an exact rule whose answer is non-empty |
| Grading.BlankSummaryWrong | src/lib/components/activities/ReadingComprehensionSlide.tsx:241-248 | a missing, empty or blank summary answer is never correct |
| Grading.SummaryAcceptsVariant | src/lib/components/activities/ReadingComprehensionSlide.tsx:241-248 | an accepted answer typed in any case with any padding is correct |
| Grading.CountCorrect | src/lib/components/activities/ReadingComprehensionSlide.tsx:223-270 | the number of correct questions is at most the number of questions |
| Grading.GradeList | src/lib/components/activities/ReadingComprehensionSlide.tsx:223-227 | one `forEach` pass counts the correct questions and writes each verdict under its id |
| Grading.WrittenShape | src/lib/components/activities/ReadingComprehensionSlide.tsx:213-270 | after a pass every graded id holds a boolean and no other entry moved |
| Grading.WrittenVerdicts | src/lib/components/activities/ReadingComprehensionSlide.tsx:213-270 | with distinct ids, each question's entry is its own verdict |
| Grading.TrueCountUpdate | src/lib/components/activities/ReadingComprehensionSlide.tsx:225 | writing another id does not change how many of these questions are marked true |
| Grading.TrueEntriesMatchCount | src/lib/components/activities/ReadingComprehensionSlide.tsx:213-281 | with distinct ids, the true entries of the feedback number exactly `correct` |
| Grading.Toggle | src/lib/components/activities/ReadingComprehensionSlide.tsx:201-205 | a selected key is removed, an unselected key appended; no other key changes |
| Grading.ToggleTwice | src/lib/components/activities/ReadingComprehensionSlide.tsx:199-208 | toggling twice restores whether each key is selected |
| Grading.ToggleIn | src/lib/components/activities/ReadingComprehensionSlide.tsx:199-208 | only the toggled question's selection changes |
| Grading.QuotientSpec | src/lib/components/activities/ReadingComprehensionSlide.tsx:284 | the quotient is the floor of the division |
| Grading.QuotientIsDivision | src/lib/components/activities/ReadingComprehensionSlide.tsx:284 | the quotient agrees with integer division |
| Grading.QuotientBetween | src/lib/components/activities/ReadingComprehensionSlide.tsx:284 | the quotient lands in a range when the dividend does |
| Grading.RoundPercent | src/lib/components/activities/ReadingComprehensionSlide.tsx:282-286 | `Math.round(correct / total * 100)` lies in [0, 100]; it is 100 when all are correct and 0 when none is |
| Grading.RoundedRatioBounds | src/lib/components/activities/ReadingComprehensionSlide.tsx:284 | the rounded ratio's bounds, stated on the quotient it is computed by |
| Grading.DivBetween | src/lib/components/activities/ReadingComprehensionSlide.tsx:284 | integer division lands in a range when the dividend does |
| Grading.RoundPercentNearest | src/lib/components/activities/ReadingComprehensionSlide.tsx:284 | the rounded percentage is within one half of the exact ratio, halves going up |
| ReadingComprehension.FreshFeedback | src/lib/components/activities/ReadingComprehensionSlide.tsx:128-132 | every question id of each kind maps to `null` |
| ReadingComprehension.ScoreOf | src/lib/components/activities/ReadingComprehensionSlide.tsx:282-286 | the score lies in [0, 100] and is 0 when nothing is graded |
| ReadingComprehension.FreshAnswers | src/lib/components/activities/ReadingComprehensionSlide.tsx:116-126 | every question id maps to `''`, and every multi-select id to `[]` |
| ReadingComprehension.CorrectCount | src/lib/components/activities/ReadingComprehensionSlide.tsx:223-270 | the correct answers never outnumber the graded questions |
| ReadingComprehension.GradedFeedbackCounts | src/lib/components/activities/ReadingComprehensionSlide.tsx:213-270 | with no repeated id within a kind, the feedback entries set to `true` number exactly the correct answers |
| ReadingComprehension.Grade | src/lib/components/activities/ReadingComprehensionSlide.tsx:210-287 | the feedback holds every verdict and the score is the rounded percentage over the graded kinds (short answers excluded) |
| ReadingComprehension.GradeKinds | src/lib/components/activities/ReadingComprehensionSlide.tsx:223-270 | the seven passes count the correct answers and build the feedback |
| ReadingComprehension.ReadingSlide.ToggleItemSelection | src/lib/components/activities/ReadingComprehensionSlide.tsx:199-208 | only the chosen question's selection changes, by the toggle rule; feedback and score are kept |
| ReadingComprehension.ReadingSlide.GradeTest | src/lib/components/activities/ReadingComprehensionSlide.tsx:210-287 | answers are kept; feedback and score become the grading's, the score in [0, 100] |
| ReadingComprehension.ReadingSlide.ResetTest | src/lib/components/activities/ReadingComprehensionSlide.tsx:289-308 | every answer record, feedback record and the score return to their initial values |
| MiLesson4.TotalIsTwenty | src/routes/lessons/advanced-topics/multiple-intelligence-theory/lesson-4/exercises.tsx:42-226 | the lesson has five questions of each graded kind, twenty in all |
| MiLesson4.Score | src/routes/lessons/advanced-topics/multiple-intelligence-theory/lesson-4/exercises.tsx:347 | `Math.round(correct / 20 * 100)` is five points per correct answer, in [0, 100] |
| MiLesson4.CorrectCount | src/routes/lessons/advanced-topics/multiple-intelligence-theory/lesson-4/exercises.tsx:313-338 | the correct answers never outnumber the graded questions |
| MiLesson4.Grade | src/routes/lessons/advanced-topics/multiple-intelligence-theory/lesson-4/exercises.tsx:303-348 | the feedback and the score out of twenty that grading writes |
| MiLesson4.GradeKinds | src/routes/lessons/advanced-topics/multiple-intelligence-theory/lesson-4/exercises.tsx:313-338 | the four passes count the correct answers and build the feedback |
| MiLesson4.AssessmentCountsTrueEntries | src/routes/lessons/advanced-topics/multiple-intelligence-theory/lesson-4/exercises.tsx:303-348 | the score is five points per feedback entry set to `true` |
| MiLesson4.ReadingAssessment.GradeTest | src/routes/lessons/advanced-topics/multiple-intelligence-theory/lesson-4/exercises.tsx:303-348 | answers are kept; feedback and score become the grading of the answers |
| MiLesson4.InitialAnswersScoreZero | src/routes/lessons/advanced-topics/multiple-intelligence-theory/lesson-4/exercises.tsx:280-294 | the initial empty answers score nothing, since no exact answer is empty and a blank summary is wrong |
| MiLesson4.RejectsEmpty | src/routes/lessons/advanced-topics/multiple-intelligence-theory/lesson-4/exercises.tsx:313-338 | each of the four lists counts nothing on empty answers |
| MiLesson4.AllWrongCountsZero | src/routes/lessons/advanced-topics/multiple-intelligence-theory/lesson-4/exercises.tsx:313-338 | questions that reject the empty answer count nothing on a record of empty answers |
| Lesson3Exercises.TotalIsNine | src/routes/lessons/everybody-up-0/unit-1/lesson-3/exercises.tsx:265-268 | four character tasks, two picture questions and three story questions: nine in all |
| Lesson3Exercises.ScoreOutOfNine | src/routes/lessons/everybody-up-0/unit-1/lesson-3/exercises.tsx:272 | the score lies in [0, 100] and is 100 exactly when all nine are correct |
| Lesson3Exercises.Grade | src/routes/lessons/everybody-up-0/unit-1/lesson-3/exercises.tsx:235-273 | each list graded into a fresh record under its own ids, and the rounded percentage of nine |
| Lesson3Exercises.ReadingExercises.ToggleSupplySelection | src/routes/lessons/everybody-up-0/unit-1/lesson-3/exercises.tsx:224-233 | only the chosen task's selection changes, by the toggle rule |
| Lesson3Exercises.ReadingExercises.CorrectCount | src/routes/lessons/everybody-up-0/unit-1/lesson-3/exercises.tsx:242-263 | the correct answers never exceed the number of tasks |
| Lesson3Exercises.ReadingExercises.GradeExercises | src/routes/lessons/everybody-up-0/unit-1/lesson-3/exercises.tsx:235-273 | the three feedback records and the score become the grading of the kept answers |
| Lesson3Exercises.ReadingExercises.ResetExercises | src/routes/lessons/everybody-up-0/unit-1/lesson-3/exercises.tsx:275-283 | every record back to its initial value and no score |
| Lesson3Exercises.CharacterTaskExamples | src/routes/lessons/everybody-up-0/unit-1/lesson-3/exercises.tsx:242-249 | the right supplies in either order are accepted; one too many or too few is not |
| ListeningMi.DSymmetric | public/embed/multitple-intelligence-theory/listening/script.js:66-89 | the prefix distance is the same with the two strings exchanged |
| ListeningMi.DAtMostLonger | public/embed/multitple-intelligence-theory/listening/script.js:66-89 | the prefix distance is at most the longer prefix length |
| ListeningMi.DZeroIffEqual | public/embed/multitple-intelligence-theory/listening/script.js:66-89 | the prefix distance is 0 exactly between equal prefixes |
| ListeningMi.RowStep | public/embed/multitple-intelligence-theory/listening/script.js:76-83 | the value each inner step computes is the distance of the two prefixes, and the row keeps its half-updated shape |
| ListeningMi.FillRow | public/embed/multitple-intelligence-theory/listening/script.js:71-86 | one pass of the inner loop turns row `i - 1` of the costs array into row `i` |
| ListeningMi.ComputeEditDistance | public/embed/multitple-intelligence-theory/listening/script.js:66-89 | the one-row dynamic programme returns the Levenshtein distance of the lower-cased strings |
| ListeningMi.EditDistanceProperties | public/embed/multitple-intelligence-theory/listening/script.js:66-89 | 0 exactly for strings equal ignoring case; symmetric; at most the longer length; the other length against the empty string |
| ListeningMi.PercentBounds | public/embed/multitple-intelligence-theory/listening/script.js:61-63 | the share left after at most `l` edits lies in [0, 100] and is 100 exactly without edits |
| ListeningMi.SimilarityProperties | public/embed/multitple-intelligence-theory/listening/script.js:50-64 | 1.0 (not 100) for two empty strings; otherwise in [0, 100] and 100 exactly when equal ignoring case; symmetric |
| ListeningMi.RoundHalfUpBounds | public/embed/multitple-intelligence-theory/listening/script.js:144 | the rounded score stays within integer bounds of the exact one |
| ListeningMi.CheckedStep | public/embed/multitple-intelligence-theory/listening/script.js:108-171 | checking one more item extends the count, the marks and the recorded scores by that item alone |
| ListeningMi.CheckItem | public/embed/multitple-intelligence-theory/listening/script.js:108-171 | one item: exact equality for multiple choice, `String(answer)` for true/false, the cleaned forms for fill-in, similarity > 80 for dictation; dictation adds nothing to the count but records its rounded score |
| ListeningMi.CheckAnswers | public/embed/multitple-intelligence-theory/listening/script.js:93-171 | the tab's correct count, one mark per item (none for a missing element) and, on the dictation tab only, the recorded scores |
| ListeningMi.DictationNeverCounted | public/embed/multitple-intelligence-theory/listening/script.js:159-160 | the dictation tab never adds to the correct count |
| ListeningMi.UnansweredIsIncorrect | public/embed/multitple-intelligence-theory/listening/script.js:115-156 | an item without a checked radio or input is never correct |
| ListeningMi.AverageScore | public/embed/multitple-intelligence-theory/listening/script.js:178-184 | the average of no recorded score is 0 |
| ListeningMi.SumBounds | public/embed/multitple-intelligence-theory/listening/script.js:180-183 | a sum of bounded scores is bounded by the count times the bounds |
| ListeningMi.DictationScoresBounded | public/embed/multitple-intelligence-theory/listening/script.js:143-144 | every recorded dictation score lies in [0, 100] |
| ListeningMi.AverageBounded | public/embed/multitple-intelligence-theory/listening/script.js:178-184 | the average accuracy lies in [0, 100] |
| ListeningMi.MeanBounded | public/embed/multitple-intelligence-theory/listening/script.js:178-184 | the mean of a total of at most 100 per entry is at most 100 |
| ListeningEu.CountChoice | public/embed/everybody-up-0/listening/script.js:38-44 | the correct radio groups never outnumber the questions |
| ListeningEu.CountFill | public/embed/everybody-up-0/listening/script.js:47-53 | the correct text fields never outnumber the questions |
| ListeningEu.DialoguesBounded | public/embed/everybody-up-0/listening/script.js:10 | the dialogue count never exceeds the dialogues total, the sum of their question counts |
| ListeningEu.Percentage | public/embed/everybody-up-0/listening/script.js:80 | 0 when the total is 0; otherwise in [0, 100] and 100 exactly when all are correct |
| ListeningEu.PercentOf | public/embed/everybody-up-0/listening/script.js:80 | the ratio times 100 lies in [0, 100] and is 100 exactly when all are correct |
| ListeningEu.FeedbackEmoji | public/embed/everybody-up-0/listening/script.js:81-84 | the party emoji exactly at 100, thumbs up from 75, smile from 50, thinking below |
| ListeningEu.TallyChoices | public/embed/everybody-up-0/listening/script.js:38-44 | the loop counts the groups with a checked radio equal to the answer |
| ListeningEu.TallyFills | public/embed/everybody-up-0/listening/script.js:47-53 | the loop counts the fields whose trimmed, lowered value is the trimmed, lowered answer |
| ListeningEu.TallyDialogues | public/embed/everybody-up-0/listening/script.js:56-64 | the nested loop counts every correct question of every dialogue |
| ListeningEu.ListeningBoard.CheckListenAndChoose | public/embed/everybody-up-0/listening/script.js:36-44 | the tab's count is recounted from 0, so re-checking the same answers gives the same count; the other tabs are kept |
| ListeningEu.ListeningBoard.CheckFillInTheBlank | public/embed/everybody-up-0/listening/script.js:45-53 | the tab's count is recounted from 0; the other tabs are kept |
| ListeningEu.ListeningBoard.CheckDialogues | public/embed/everybody-up-0/listening/script.js:54-64 | the tab's count is recounted from 0 over every dialogue; the other tabs are kept |
| ListeningEu.ListeningBoard.Results | public/embed/everybody-up-0/listening/script.js:76-92 | the emoji matches the percentage, which lies in [0, 100] and earns the party emoji exactly when all are correct |
| ListeningEu.NothingCheckedCountsZero | public/embed/everybody-up-0/listening/script.js:40-41 | with no radio checked nothing is counted |
| CandyCrush.Marked | src/lib/components/games/CandyCrushEnglishGame.tsx:156-191 | a copy of the grid in which exactly the cells inside some horizontal or vertical window of three equal colours are flagged, every other field kept |
| CandyCrush.GridExt | src/lib/components/games/CandyCrushEnglishGame.tsx:158 | two 8×8 grids that agree on every cell are the same grid |
| CandyCrush.SetMatched | src/lib/components/games/CandyCrushEnglishGame.tsx:168-170 | flagging one cell changes that cell's flag and nothing else |
| CandyCrush.SetCell | src/lib/components/games/CandyCrushEnglishGame.tsx:246-249 | writing one cell changes that cell and nothing else |
| CandyCrush.HFlagStep | src/lib/components/games/CandyCrushEnglishGame.tsx:163-172 | flagging the three cells of a horizontal run (or nothing, when the window is not a run) moves the scan one window on |
| CandyCrush.VFlagStep | src/lib/components/games/CandyCrushEnglishGame.tsx:179-188 | the same for a vertical window |
| CandyCrush.HFoundStep | src/lib/components/games/CandyCrushEnglishGame.tsx:164-171 | `hasMatch` records whether any horizontal window seen so far was a run |
| CandyCrush.VFoundStep | src/lib/components/games/CandyCrushEnglishGame.tsx:180-187 | `hasMatch` records whether any window seen so far was a run |
| CandyCrush.ScanRow | src/lib/components/games/CandyCrushEnglishGame.tsx:161-174 | the horizontal windows of one row are flagged and recorded |
| CandyCrush.ScanColumn | src/lib/components/games/CandyCrushEnglishGame.tsx:177-190 | the vertical windows of one column are flagged and recorded |
| CandyCrush.Scan | src/lib/components/games/CandyCrushEnglishGame.tsx:156-191 | the two scans flag exactly the cells of runs, on a copy, and report whether a run exists |
| CandyCrush.RowCount | src/lib/components/games/CandyCrushEnglishGame.tsx:198-209 | the matched candies of a row never outnumber its cells |
| CandyCrush.CountMatched | src/lib/components/games/CandyCrushEnglishGame.tsx:198-209 | the nested `forEach` counts every matched candy of the grid |
| CandyCrush.CountBound | src/lib/components/games/CandyCrushEnglishGame.tsx:198-209 | an 8×8 grid has at most 64 matched candies |
| CandyCrush.Column | src/lib/components/games/CandyCrushEnglishGame.tsx:241-259 | column `c`, top to bottom |
| CandyCrush.Kept | src/lib/components/games/CandyCrushEnglishGame.tsx:244 | the unmatched candies of a column, in their original order |
| CandyCrush.CreateCandy | src/lib/components/games/CandyCrushEnglishGame.tsx:108-124 | a new unmatched candy at the given cell whose colour avoids the excluded ones whenever some colour is free; any colour when all six are excluded |
| CandyCrush.KeptStep | src/lib/components/games/CandyCrushEnglishGame.tsx:243-253 | walking up one cell adds it in front of the kept candies exactly when it is unmatched |
| CandyCrush.PackedStep | src/lib/components/games/CandyCrushEnglishGame.tsx:246-251 | writing the next unmatched candy just above the packed run, renumbered, extends the run |
| CandyCrush.PackNextKeeps | src/lib/components/games/CandyCrushEnglishGame.tsx:244-252 | one iteration of the first drop loop keeps the packing invariant: the unmatched candies below the current row sit, renumbered and in order, at the bottom of the column, and nothing outside the column or at or above the row has moved |
| CandyCrush.PackColumn | src/lib/components/games/CandyCrushEnglishGame.tsx:242-253 | the unmatched candies of the column end up at its bottom, in order, with their new rows; other columns untouched |
| CandyCrush.RefillColumn | src/lib/components/games/CandyCrushEnglishGame.tsx:255-258 | exactly the cells from `emptyRow` up to the top get new candies |
| CandyCrush.DropColumn | src/lib/components/games/CandyCrushEnglishGame.tsx:240-259 | one column is dropped and refilled; the other columns are untouched |
| CandyCrush.ColumnDroppedCells | src/lib/components/games/CandyCrushEnglishGame.tsx:240-259 | a dropped column holds positioned, unmatched candies of valid colours |
| CandyCrush.ColumnDroppedFrame | src/lib/components/games/CandyCrushEnglishGame.tsx:240-259 | the drop of a column depends only on that column |
| CandyCrush.DropAndRefill | src/lib/components/games/CandyCrushEnglishGame.tsx:236-263 | every column keeps its unmatched candies in order, packed at the bottom with updated rows, and gets new candies in exactly the cells above; no candy is left flagged |
| CandyCrush.FreeColor | src/lib/components/games/CandyCrushEnglishGame.tsx:131-149 | with at most two colours excluded, one of the six is free |
| CandyCrush.InitializeGrid | src/lib/components/games/CandyCrushEnglishGame.tsx:126-153 | an 8×8 grid of positioned, unmatched candies without any horizontal or vertical run of three |
| CandyCrush.RowOkStep | src/lib/components/games/CandyCrushEnglishGame.tsx:133-139 | excluding the colour of an equal pair on the left keeps the row free of runs |
| CandyCrush.AboveStep | src/lib/components/games/CandyCrushEnglishGame.tsx:141-147 | excluding the colour of an equal pair above keeps the columns free of runs |
| CandyCrush.BuildRow | src/lib/components/games/CandyCrushEnglishGame.tsx:128-151 | one built row has no run and completes no vertical run with the rows above |
| CandyCrush.Swapped | src/lib/components/games/CandyCrushEnglishGame.tsx:392-395 | the two candies trade places and take their new cells' positions; every other cell is kept |
| CandyCrush.SwapKeepsShape | src/lib/components/games/CandyCrushEnglishGame.tsx:392-395 | a swap keeps the grid well formed and unflagged |
| CandyCrush.SwapTwice | src/lib/components/games/CandyCrushEnglishGame.tsx:408-416 | swapping the same two cells back restores the grid exactly |
| CandyCrush.RowCountAppend | src/lib/components/games/CandyCrushEnglishGame.tsx:198-209 | counting matched candies works piece by piece |
| CandyCrush.GridCountAppend | src/lib/components/games/CandyCrushEnglishGame.tsx:198-209 | counting matched candies works row block by row block |
| CandyCrush.MarkedAtLeastThree | src/lib/components/games/CandyCrushEnglishGame.tsx:192-210 | whenever there is a run at least three candies are flagged, so a scoring scan adds at least thirty points |
| CandyCrush.MovesAfterAnswer | src/lib/components/games/CandyCrushEnglishGame.tsx:461-491 | a right answer adds two moves; a wrong one takes one away but never goes below zero |
| CandyCrush.FillBlankForgiving | src/lib/components/games/CandyCrushEnglishGame.tsx:453-456 | a fill-in answer typed with padding or in upper case is right |
| CandyCrush.ChoiceNeedsOption | src/lib/components/games/CandyCrushEnglishGame.tsx:457-458 | the other question kinds are right exactly when the chosen option is the answer, and never without one |
| CandyCrush.ScanAndScore | src/lib/components/games/CandyCrushEnglishGame.tsx:192-210 | a run adds ten points per flagged candy, at least thirty |
| CandyCrush.BoardAtRest | src/lib/components/games/CandyCrushEnglishGame.tsx:126-153 | a grid without runs or flags satisfies the board invariant at rest |
| CandyCrush.MarkedWellFormed | src/lib/components/games/CandyCrushEnglishGame.tsx:158 | flagging keeps the grid well formed |
| CandyCrush.BoardAfterRun | src/lib/components/games/CandyCrushEnglishGame.tsx:311-323 | a scan with a run shows the flagged grid and waits for the drop |
| CandyCrush.BoardAfterSwapRun | src/lib/components/games/CandyCrushEnglishGame.tsx:402-405 | a swap with a run shows the flagged grid and queues a scan of the swapped one |
| CandyCrush.BoardAfterDrop | src/lib/components/games/CandyCrushEnglishGame.tsx:347-349 | the dropped grid is shown and queued for the next scan |
| CandyCrush.SwapAndCheck | src/lib/components/games/CandyCrushEnglishGame.tsx:392-419 | the swap, then `checkMatches`: on a run the flagged grid and its points; otherwise the grid it started from |
| CandyCrush.SwapScoresOrUndoes | src/lib/components/games/CandyCrushEnglishGame.tsx:392-419 | a swap either spends one move and scores at least thirty points, or restores grid, moves and score |
| CandyCrush.ScanScoresOrStops | src/lib/components/games/CandyCrushEnglishGame.tsx:272-353 | a cascade round either scores at least thirty points and leaves the drop due, or ends the loop on a grid without runs |
| CandyCrush.SwapMove | src/lib/components/games/CandyCrushEnglishGame.tsx:392-419 | the swap step of the play, as `AfterSwap` describes it |
| CandyCrush.SwapKeepsBoard | src/lib/components/games/CandyCrushEnglishGame.tsx:392-419 | a swap from a board at rest keeps moves non-negative and the board invariant |
| CandyCrush.ScanMove | src/lib/components/games/CandyCrushEnglishGame.tsx:272-353 | one cascade scan, as `AfterScan` describes it |
| CandyCrush.ScanKeepsBoard | src/lib/components/games/CandyCrushEnglishGame.tsx:272-355 | a cascade scan keeps the board invariant; when the loop ends the board shows the grid it checked |
| CandyCrush.CandyCrushGame.StartGame | src/lib/components/games/CandyCrushEnglishGame.tsx:506-519 | a fresh grid without runs, score 0, three moves, the store reset, no question shown |
| CandyCrush.CandyCrushGame.CandyClick | src/lib/components/games/CandyCrushEnglishGame.tsx:361-383 | ignored while processing; a first click selects; a second click always clears the selection and swaps only orthogonal neighbours when a move is left |
| CandyCrush.CandyCrushGame.SwapCandies | src/lib/components/games/CandyCrushEnglishGame.tsx:386-420 | the play after the swap and its 300 ms check: one move spent and points scored, or everything undone |
| CandyCrush.CandyCrushGame.CascadeScan | src/lib/components/games/CandyCrushEnglishGame.tsx:272-322 | one round of `processMatches`: a run scores and waits for the drop; none ends the loop and clears `isProcessing` |
| CandyCrush.CandyCrushGame.CascadeDrop | src/lib/components/games/CandyCrushEnglishGame.tsx:323-349 | after 500 ms every column is dropped and refilled and the next scan is queued; score and moves are kept |
| CandyCrush.CandyCrushGame.RandomQuestion | src/lib/components/games/CandyCrushEnglishGame.tsx:423-433 | the question drawn is one of the list |
| CandyCrush.CandyCrushGame.OpenQuestionModal | src/lib/components/games/CandyCrushEnglishGame.tsx:436-444 | the panel shows a question of the list with a clean answer; the board is untouched |
| CandyCrush.CandyCrushGame.TypeAnswer | src/lib/components/games/CandyCrushEnglishGame.tsx:84 | only the typed answer changes |
| CandyCrush.CandyCrushGame.ChooseOption | src/lib/components/games/CandyCrushEnglishGame.tsx:85 | only the chosen option changes |
| CandyCrush.CandyCrushGame.HandleSubmitAnswer | src/lib/components/games/CandyCrushEnglishGame.tsx:447-504 | the moves, the store and the question state become what `AfterAnswer` gives, the board untouched and the game invariant kept |
| CandyCrush.AnswerOutcome | src/lib/components/games/CandyCrushEnglishGame.tsx:447-504 | ignored without a question or while submitting; otherwise a right answer adds two moves and a wrong one takes one away but never below zero, the store counts the verdict, one more question is answered, submissions close and a next question is due |
| CandyCrush.CandyCrushGame.NextQuestion | src/lib/components/games/CandyCrushEnglishGame.tsx:495-503 | after 1500 ms a new question of the list with a clean answer, and submissions open again |
| BubbleBoard.BoardExt | src/lib/components/games/BubbleShooterEnglishGame.tsx:53 | two 10×8 boards that agree on every cell are the same board |
| BubbleBoard.SetCell | src/lib/components/games/BubbleShooterEnglishGame.tsx:345-352 | replacing one cell changes that cell and no other |
| BubbleBoard.InitialBoard | src/lib/components/games/BubbleShooterEnglishGame.tsx:117-124 | the board is well formed, exactly the top four rows hold bubbles, each with the colour drawn for its cell and its own row and column |
| BubbleBoard.Column | src/lib/components/games/BubbleShooterEnglishGame.tsx:131-134 | a column read top to bottom has ten cells, row by row |
| BubbleBoard.PresentFrom | src/lib/components/games/BubbleShooterEnglishGame.tsx:133-135 | reading a column's bubbles from one row on starts with that row's bubble, if any, then the rest |
| BubbleBoard.Gravity | src/lib/components/games/BubbleShooterEnglishGame.tsx:126-147 | every cell of the result is the cell its column gets once that column's bubbles are packed at the bottom in their order |
| BubbleBoard.PackStep | src/lib/components/games/BubbleShooterEnglishGame.tsx:135-141 | placing the next bubble read upwards in the write row, relabelled with that row, extends the packed bottom run by one |
| BubbleBoard.GravityRow | src/lib/components/games/BubbleShooterEnglishGame.tsx:133-143 | one row of the inner loop keeps the loop state: the column read so far is packed at the bottom, earlier columns done, later ones empty |
| BubbleBoard.EmptyBoard | src/lib/components/games/BubbleShooterEnglishGame.tsx:127-129 | the start board of gravity is 10×8 with every cell empty |
| BubbleBoard.ApplyGravity | src/lib/components/games/BubbleShooterEnglishGame.tsx:126-147 | the loops compute exactly the packed board `Gravity` |
| BubbleBoard.Relabel | src/lib/components/games/BubbleShooterEnglishGame.tsx:136-140 | relabelling keeps the number of bubbles |
| BubbleBoard.PackedCol | src/lib/components/games/BubbleShooterEnglishGame.tsx:131-143 | a packed column has ten cells, each the packed cell of its row |
| BubbleBoard.RelabelCons | src/lib/components/games/BubbleShooterEnglishGame.tsx:136-141 | relabelling a run from row j is relabelling its first bubble to j followed by the rest from j+1 |
| BubbleBoard.PackedPresent | src/lib/components/games/BubbleShooterEnglishGame.tsx:131-143 | reading a packed column from any row returns its bubbles relabelled into consecutive rows ending at the bottom |
| BubbleBoard.GravityColumn | src/lib/components/games/BubbleShooterEnglishGame.tsx:126-147 | after gravity a column holds exactly its former bubbles, in the same order, relabelled into the bottom rows |
| BubbleBoard.GravitySettles | src/lib/components/games/BubbleShooterEnglishGame.tsx:126-147 | after gravity no bubble sits above an empty cell |
| BubbleBoard.PresentColors | src/lib/components/games/BubbleShooterEnglishGame.tsx:134 | the bubbles read from a column keep valid colours |
| BubbleBoard.GravityWellFormed | src/lib/components/games/BubbleShooterEnglishGame.tsx:136-140 | gravity keeps every bubble's row and column equal to its place and its colour valid |
| BubbleBoard.InAllCells | src/lib/components/games/BubbleShooterEnglishGame.tsx:161-162 | every in-board position is one the scan visits |
| BubbleBoard.ConnectedRefl | src/lib/components/games/BubbleShooterEnglishGame.tsx:169-178 | a bubble belongs to its own group |
| BubbleBoard.ConnectedStep | src/lib/components/games/BubbleShooterEnglishGame.tsx:192-199 | a same-coloured edge neighbour of a group member is in the group |
| BubbleBoard.PathStaysClosed | src/lib/components/games/BubbleShooterEnglishGame.tsx:173-201 | a walk that starts in a set closed under same-colour links stays in it |
| BubbleBoard.ClosedHoldsComponent | src/lib/components/games/BubbleShooterEnglishGame.tsx:173-201 | a closed set holding a bubble holds its whole group |
| BubbleBoard.LinkSym | src/lib/components/games/BubbleShooterEnglishGame.tsx:154-159 | same-colour neighbourhood is symmetric |
| BubbleBoard.ComponentClosed | src/lib/components/games/BubbleShooterEnglishGame.tsx:180-200 | a group is closed under same-colour links |
| BubbleBoard.ComponentAvoidsClosed | src/lib/components/games/BubbleShooterEnglishGame.tsx:166-167 | a bubble outside a closed visited set has its whole group outside it, so an unvisited bubble starts a fresh group |
| BubbleBoard.ReversedPathReaches | src/lib/components/games/BubbleShooterEnglishGame.tsx:180-200 | a walk ending in a closed set started in it |
| BubbleBoard.ComponentOfMember | src/lib/components/games/BubbleShooterEnglishGame.tsx:203-205 | every member of a group has that same group |
| BubbleBoard.ConnectedEnds | src/lib/components/games/BubbleShooterEnglishGame.tsx:175-176 | both ends of a same-colour walk are bubbles |
| BubbleBoard.ComponentOccupied | src/lib/components/games/BubbleShooterEnglishGame.tsx:175-178 | every group member, and the group's start, is a bubble |
| BubbleBoard.NoDupCard | src/lib/components/games/BubbleShooterEnglishGame.tsx:203 | a cluster without repeats has as many entries as distinct cells, so `cluster.length` counts the group |
| BubbleBoard.AdjacentToward | src/lib/components/games/BubbleShooterEnglishGame.tsx:154-159 | every edge neighbour lies in one of the four explored directions |
| BubbleBoard.ExpandedGrows | src/lib/components/games/BubbleShooterEnglishGame.tsx:198 | marking more cells visited keeps every expanded cell's links inside the visited set |
| BubbleBoard.Explore | src/lib/components/games/BubbleShooterEnglishGame.tsx:180-200 | one direction: an in-board unvisited neighbour of the same colour is marked and pushed, otherwise nothing changes; the search invariant is kept |
| BubbleBoard.ExpandTop | src/lib/components/games/BubbleShooterEnglishGame.tsx:173-201 | popping a cell moves it into the cluster, explores its four directions and either marks a new cell or shrinks the stack |
| BubbleBoard.DirStep | src/lib/components/games/BubbleShooterEnglishGame.tsx:180 | after exploring one more direction, every link in the directions done so far ends in the visited set |
| BubbleBoard.AllDirsDone | src/lib/components/games/BubbleShooterEnglishGame.tsx:180-200 | after the four directions every same-colour neighbour of the popped cell is visited |
| BubbleBoard.Flood | src/lib/components/games/BubbleShooterEnglishGame.tsx:169-201 | the depth-first search from an unvisited bubble returns exactly its group, each cell once, and adds exactly that group to the visited set |
| BubbleBoard.FloodDone | src/lib/components/games/BubbleShooterEnglishGame.tsx:173 | when the stack is empty the cluster is the whole group |
| BubbleBoard.ClearSetGroups | src/lib/components/games/BubbleShooterEnglishGame.tsx:203-205 | a cleared bubble's whole group is cleared, and a non-empty cleared set has at least three bubbles |
| BubbleBoard.SubsetCard | src/lib/components/games/BubbleShooterEnglishGame.tsx:203 | a subset is no larger than its superset |
| BubbleBoard.VisitCell | src/lib/components/games/BubbleShooterEnglishGame.tsx:163-205 | one scanned cell keeps the scan invariant: the visited set is the union of the groups met so far and the queue holds exactly the large ones, once |
| BubbleBoard.ClosedUnion | src/lib/components/games/BubbleShooterEnglishGame.tsx:166-171 | the union of two closed sets is closed |
| BubbleBoard.GroupMembers | src/lib/components/games/BubbleShooterEnglishGame.tsx:203-205 | every member of a group is a bubble with that same group |
| BubbleBoard.LargeOfUnion | src/lib/components/games/BubbleShooterEnglishGame.tsx:203-205 | adding a group to the visited set adds it to the large-group set exactly when it has three or more members |
| BubbleBoard.NoDupAppend | src/lib/components/games/BubbleShooterEnglishGame.tsx:204 | appending a disjoint repeat-free cluster keeps the queue repeat-free and adds its cells |
| BubbleBoard.FindClusters | src/lib/components/games/BubbleShooterEnglishGame.tsx:149-207 | the queue holds every bubble of every group of three or more, and only those, each once |
| BubbleBoard.Blanked | src/lib/components/games/BubbleShooterEnglishGame.tsx:213-219 | the queued cells are empty and every other cell is unchanged |
| BubbleBoard.BlankAll | src/lib/components/games/BubbleShooterEnglishGame.tsx:213-219 | emptying the queued cells one by one gives the board with exactly those cells emptied |
| BubbleBoard.FindAndClearMatches | src/lib/components/games/BubbleShooterEnglishGame.tsx:149-240 | with no group of three the count is 0 and the board unchanged; otherwise the count is the number of bubbles in such groups and the board is those removed and gravity applied |
| BubbleBoard.GravityCountFrom | src/lib/components/games/BubbleShooterEnglishGame.tsx:126-147 | gravity keeps the number of bubbles |
| BubbleBoard.PresentShrinks | src/lib/components/games/BubbleShooterEnglishGame.tsx:217-219 | emptying cells never adds bubbles to a column, and emptying a bubble removes one |
| BubbleBoard.BlankedCountFrom | src/lib/components/games/BubbleShooterEnglishGame.tsx:217-219 | emptying a set of cells leaves no more bubbles, and strictly fewer when it holds a bubble |
| BubbleBoard.ClearShrinks | src/lib/components/games/BubbleShooterEnglishGame.tsx:248-260 | a pass that clears something leaves fewer bubbles, so the chain loop ends |
| BubbleBoard.BlankedWellFormed | src/lib/components/games/BubbleShooterEnglishGame.tsx:217-219 | emptying cells keeps a board well formed |
| BubbleBoard.PassFacts | src/lib/components/games/BubbleShooterEnglishGame.tsx:209-239 | a clearing pass clears at least three bubbles, leaves fewer, a settled board, and a well-formed one from a well-formed one |
| BubbleBoard.ResolveBoard | src/lib/components/games/BubbleShooterEnglishGame.tsx:242-268 | the chain loop ends with no group of three left, at least three cleared per pass, the score raised by 15 per bubble plus 5·k for the k-th pass, the board unchanged when nothing cleared and settled otherwise, well-formedness kept |
| BubbleShooter.FillBlankForgiving | src/lib/components/games/BubbleShooterEnglishGame.tsx:388-391 | a fill-in answer padded with spaces, or typed in capitals, is still right when the expected answer is unpadded |
| BubbleShooter.FillBlankNormalForm | src/lib/components/games/BubbleShooterEnglishGame.tsx:388-391 | the trimmed lower-case form of the expected fill-in answer is accepted, whatever padding the expected answer carries |
| BubbleShooter.ChoiceNeedsOption | src/lib/components/games/BubbleShooterEnglishGame.tsx:392-394 | any other question is right exactly when the chosen option equals the expected answer, and wrong with no option chosen |
| BubbleShooter.ShotsAfterAnswer | src/lib/components/games/BubbleShooterEnglishGame.tsx:399-407 | a right answer adds three shots; a wrong one removes one but never goes below zero |
| BubbleShooter.TargetRow | src/lib/components/games/BubbleShooterEnglishGame.tsx:328-335 | the row returned is the lowest empty cell of the column (every cell below it holds a bubble), or -1 when the column is full |
| BubbleShooter.Shoot | src/lib/components/games/BubbleShooterEnglishGame.tsx:328-357 | a full column refuses the shot; otherwise the bubble is put into the lowest empty cell and the board resolved, ending well formed with no group of three, scored 15 per bubble plus 5 per pass number, unchanged past the new bubble when nothing clears |
| BubbleShooter.StartPlay | src/lib/components/games/BubbleShooterEnglishGame.tsx:424-439 | a new game has the top four rows full, two queued bubbles, eight shots, score and combo 0, and is not over |
| BubbleShooter.Fire | src/lib/components/games/BubbleShooterEnglishGame.tsx:328-379 | a fired shot spends one shot, keeps the resolved board and score, sets the combo to the number of passes, moves the next bubble up, and ends the game on a bubble in the top row or on the last shot with no questions; a refused shot changes nothing |
| BubbleShooter.Submit | src/lib/components/games/BubbleShooterEnglishGame.tsx:382-411 | outside a question or during a submission nothing changes; otherwise the answer count rises by one, a right answer adds three shots, keeps a combo of at least one and records a right answer in the store, a wrong one removes a shot down to zero and records a wrong answer |
| BubbleShooter.SubmitOnce | src/lib/components/games/BubbleShooterEnglishGame.tsx:383-385 | a second submission before the continuation runs changes nothing |
| BubbleShooter.SubmitCounts | src/lib/components/games/BubbleShooterEnglishGame.tsx:396-411 | an answer moves the shots by +3 or -1 down to zero and the store's answer total by exactly one |
| BubbleShooter.BubbleShooterGame.constructor | src/lib/components/games/BubbleShooterEnglishGame.tsx:75-92 | a fresh game is not started, with eight shots, score 0 and no question shown |
| BubbleShooter.BubbleShooterGame.StartGame | src/lib/components/games/BubbleShooterEnglishGame.tsx:424-439 | the first board has rows 0-3 full, both queued bubbles are drawn, shots are eight, score, combo and answer count 0, the panel closed and the store reset |
| BubbleShooter.BubbleShooterGame.PrepareNextBubble | src/lib/components/games/BubbleShooterEnglishGame.tsx:272-275 | an active bubble is kept (or one drawn), a next one drawn, and nothing else changes |
| BubbleShooter.BubbleShooterGame.HandleShoot | src/lib/components/games/BubbleShooterEnglishGame.tsx:317-380 | before the start, after the end or without shots nothing changes; without an active bubble only the queue is filled; otherwise the state is the one `Fire` describes |
| BubbleShooter.BubbleShooterGame.RandomQuestion | src/lib/components/games/BubbleShooterEnglishGame.tsx:277-286 | the question comes from the list |
| BubbleShooter.BubbleShooterGame.OpenQuestionModal | src/lib/components/games/BubbleShooterEnglishGame.tsx:288-296 | the panel shows a question of the list with the typed answer, choice and submitting flag cleared; nothing else changes |
| BubbleShooter.BubbleShooterGame.QuestionEffect | src/lib/components/games/BubbleShooterEnglishGame.tsx:298-315 | a question is opened exactly when a running game is out of shots, none is shown and the list is not empty; otherwise nothing changes |
| BubbleShooter.BubbleShooterGame.TypeAnswer | src/lib/components/games/BubbleShooterEnglishGame.tsx:88 | only the typed answer changes |
| BubbleShooter.BubbleShooterGame.ChooseOption | src/lib/components/games/BubbleShooterEnglishGame.tsx:89 | only the chosen option changes |
| BubbleShooter.BubbleShooterGame.HandleSubmitAnswer | src/lib/components/games/BubbleShooterEnglishGame.tsx:382-411 | the game's shots, combo, store and panel become what `Submit` gives |
| BubbleShooter.BubbleShooterGame.AnswerTimeout | src/lib/components/games/BubbleShooterEnglishGame.tsx:413-421 | the panel closes, and reopens with a new question from the list when the shot count captured at submission was zero; the answer count is kept |
| BubbleShooter.RandomColor | src/lib/components/games/BubbleShooterEnglishGame.tsx:61-62 | the drawn colour is one of the six |
| BubbleShooter.RandomPalette | src/lib/components/games/BubbleShooterEnglishGame.tsx:117-122 | one valid colour is drawn for every cell of the 10×8 board |
| BubbleShooter.RightAnswerAtZeroAsksAgain | src/lib/components/games/BubbleShooterEnglishGame.tsx:396-421 | a right answer given with no shots left buys three shots yet its continuation still opens another question |
| AnagramActivity.TwoDigits | src/lib/components/activities/AnagramGame.tsx:77 | a number padded to two digits has at least two; below 100 exactly two, which read the number |
| AnagramActivity.FormatTime | src/lib/components/activities/AnagramGame.tsx:74-78 | the clock text has at least five characters with a colon third from the end |
| AnagramActivity.FormatTimeSeconds | src/lib/components/activities/AnagramGame.tsx:76-77 | the last two digits of the clock read the seconds modulo 60 |
| AnagramActivity.FormatTimeMinutes | src/lib/components/activities/AnagramGame.tsx:75-77 | below 100 minutes the clock has five characters and its first two digits read the whole minutes |
| AnagramActivity.ScrambleWord | src/lib/components/activities/AnagramGame.tsx:108-120 | the scrambled word is a permutation of the word's letters; when it still reads as the word ignoring case (and has two or more letters), the word's first two letters agree ignoring case |
| AnagramActivity.CreateQuestions | src/lib/components/activities/AnagramGame.tsx:99-133 | min(num, number of words) questions, each a vocabulary item of the list with its word scrambled into a permutation of its letters |
| AnagramActivity.FirstEmpty | src/lib/components/activities/AnagramGame.tsx:187 | the index of the first empty slot, every earlier one filled, or -1 exactly when no slot is empty |
| AnagramActivity.Fresh | src/lib/components/activities/AnagramGame.tsx:223-228 | n empty slots and no used letter, consistent |
| AnagramActivity.LetterClicked | src/lib/components/activities/AnagramGame.tsx:183-202 | ignored while answering, on a used letter or with no empty slot; otherwise the first empty slot takes the upper-cased letter and its index, which becomes used |
| AnagramActivity.SlotClicked | src/lib/components/activities/AnagramGame.tsx:204-218 | ignored while answering or on an empty slot; otherwise the slot empties and its source index is freed |
| AnagramActivity.LetterClickConsistent | src/lib/components/activities/AnagramGame.tsx:183-202 | a letter click keeps the used set equal to the source indices of the filled slots |
| AnagramActivity.SlotClickConsistent | src/lib/components/activities/AnagramGame.tsx:204-218 | a slot click keeps the used set equal to the source indices of the filled slots |
| AnagramActivity.SlotText | src/lib/components/activities/AnagramGame.tsx:237-239 | with one letter per slot, the joined answer has one character per slot, in slot order |
| AnagramActivity.OwnLettersRight | src/lib/components/activities/AnagramGame.tsx:237-242 | slots filled with the word's own letters in order, upper-cased, make a right answer |
| AnagramActivity.AnagramActivityGame.constructor | src/lib/components/activities/AnagramGame.tsx:50-67 | no game started, empty questions, the clock stopped at zero, score 0, and the store's total set to the vocabulary size |
| AnagramActivity.AnagramActivityGame.Tick | src/lib/components/activities/AnagramGame.tsx:80-85 | one interval tick adds a second and changes nothing else |
| AnagramActivity.AnagramActivityGame.StartGame | src/lib/components/activities/AnagramGame.tsx:135-181 | a started game at question 0 with score 0, the questions `CreateQuestions` describes, fresh slots for the first word, no feedback, the clock restarted and the store reset with the question count |
| AnagramActivity.AnagramActivityGame.HandleLetterClick | src/lib/components/activities/AnagramGame.tsx:183-202 | the round becomes `LetterClicked` of the old one, everything else kept |
| AnagramActivity.AnagramActivityGame.HandleSlotClick | src/lib/components/activities/AnagramGame.tsx:204-218 | the round becomes `SlotClicked` of the old one, everything else kept |
| AnagramActivity.AnagramActivityGame.ClearAnswer | src/lib/components/activities/AnagramGame.tsx:220-230 | ignored while answering; otherwise fresh slots for the current word and no feedback |
| AnagramActivity.AnagramActivityGame.SubmitAnswer | src/lib/components/activities/AnagramGame.tsx:232-256 | ignored while answering; otherwise the round is marked answered, a right answer (joined slots equal the word ignoring case) adds a point and a right answer to the store, a wrong one a wrong answer and shows the word |
| AnagramActivity.AnagramActivityGame.GoToNextQuestion | src/lib/components/activities/AnagramGame.tsx:258-271 | the next question with fresh slots, or after the last one the game ends and the clock stops |
| AnagramGame.CreateAllQuestions | src/lib/components/games/AnagramGame.tsx:72-102 | the questions are the vocabulary items, each exactly once, in some order, and each scrambled word is a permutation of its word |
| AnagramGame.FirstEmpty | src/lib/components/games/AnagramGame.tsx:139 | the index of the first empty slot, every earlier one filled, or -1 exactly when no slot is empty |
| AnagramGame.Fresh | src/lib/components/games/AnagramGame.tsx:171-205 | n empty slots, nothing used |
| AnagramGame.LetterClicked | src/lib/components/games/AnagramGame.tsx:135-149 | ignored while answering, on a used letter or with no empty slot; otherwise the first empty slot takes the upper-cased letter and the letter's index becomes used |
| AnagramGame.NoSlotsNoLetters | src/lib/components/games/AnagramGame.tsx:112-140 | with no slots, as left by `startGame`, a letter click changes nothing |
| AnagramGame.SlotClickedAsWritten | src/lib/components/games/AnagramGame.tsx:151-166 | ignored while answering or on an empty slot; otherwise the slot empties and the index freed is the first position in the scrambled word of the letter at the slot's own position, not of the letter the slot held |
| AnagramGame.SlotClickLeavesLetterUsed | src/lib/components/games/AnagramGame.tsx:151-166 | scrambled "AB": picking 'B' into slot 0 and clicking that slot empties every slot yet leaves 'B' used, so it can no longer be picked |
| AnagramGame.EmptySubmitWrong | src/lib/components/games/AnagramGame.tsx:177-184 | right after `startGame` there are no slots, Submit is enabled, submits the empty answer and is judged wrong for any word |
| AnagramGame.OwnLettersRight | src/lib/components/games/AnagramGame.tsx:143-184 | slots holding the word's letters upper-cased and in order join to the upper-cased word and are judged right |
| AnagramGame.UpperThenLowerWord | src/lib/components/games/AnagramGame.tsx:143-183 | lowering an upper-cased word gives the lowered word |
| AnagramGame.StartPlay | src/lib/components/games/AnagramGame.tsx:104-114 | the new questions from the first, score 0, no slot, nothing used, not answering |
| AnagramGame.LetterStep | src/lib/components/games/AnagramGame.tsx:135-149 | a letter click changes the round only, as `LetterClicked` says, and keeps the slot count |
| AnagramGame.SlotStep | src/lib/components/games/AnagramGame.tsx:151-166 | a slot click changes the round only, as `SlotClickedAsWritten` says for the current scrambled word |
| AnagramGame.Cleared | src/lib/components/games/AnagramGame.tsx:168-175 | ignored while answering; otherwise one empty slot per letter of the word, nothing used, no feedback |
| AnagramGame.Submitted | src/lib/components/games/AnagramGame.tsx:177-193 | ignored while answering; otherwise the round locks, a right answer scores a point and shows praise, a wrong one shows the word |
| AnagramGame.SubmittedStore | src/lib/components/games/AnagramGame.tsx:186-193 | ignored while answering; otherwise one right or one wrong answer is recorded by the verdict |
| AnagramGame.SubmitOnce | src/lib/components/games/AnagramGame.tsx:178-179 | a second submission of the same round changes neither the play nor the store |
| AnagramGame.Advanced | src/lib/components/games/AnagramGame.tsx:200-207 | the next question, with one empty slot per letter, nothing used, unlocked, no feedback, score kept |
| AnagramGame.NewGame | src/lib/components/games/AnagramGame.tsx:104-119 | one scrambled question per vocabulary item, the first with no slot yet, and the store reset with the vocabulary size as total |
| AnagramGame.AnagramBoard.constructor | src/lib/components/games/AnagramGame.tsx:25-45 | nothing started, and the mount effect leaves the store reset with total 0 |
| AnagramGame.AnagramBoard.Tick | src/lib/components/games/AnagramGame.tsx:53-58 | one interval tick adds a second and changes nothing else |
| AnagramGame.AnagramBoard.StartGame | src/lib/components/games/AnagramGame.tsx:104-119 | a running game as `NewGame` describes, the clock restarted at zero |
| AnagramGame.AnagramBoard.RestartGame | src/lib/components/games/AnagramGame.tsx:121-133 | back to the start screen with no questions and the store reset; the clock stops and keeps its reading |
| AnagramGame.AnagramBoard.HandleLetterClick | src/lib/components/games/AnagramGame.tsx:135-149 | the play becomes `LetterStep` of the old one; nothing else changes |
| AnagramGame.AnagramBoard.HandleSlotClick | src/lib/components/games/AnagramGame.tsx:151-166 | the play becomes `SlotStep` of the old one; nothing else changes |
| AnagramGame.AnagramBoard.ClearAnswer | src/lib/components/games/AnagramGame.tsx:168-175 | the play becomes `Cleared` of the old one; nothing else changes |
| AnagramGame.AnagramBoard.SubmitAnswer | src/lib/components/games/AnagramGame.tsx:177-198 | the play and store become `Submitted` and `SubmittedStore` of the old ones |
| AnagramGame.AnagramBoard.NextQuestion | src/lib/components/games/AnagramGame.tsx:200-212 | the play becomes `Advanced` when a next question exists; after the last the game ends and the clock stops |
| AnagramGame.AnagramBoard.CloseResults | src/lib/components/games/AnagramGame.tsx:375 | the results panel closes; nothing else changes |
| CardDeck.Dealt | src/lib/components/games/MemoryGame.tsx:103-118 | before the shuffle position k holds an unmatched card of word k/2 with that id, the English card (the word) at even positions and the Vietnamese card (the meaning) at odd ones |
| CardDeck.Deal | src/lib/components/games/MemoryGame.tsx:103-119 | the shuffled cards are a permutation of the dealt ones: a deck with one English and one Vietnamese card per id, each showing its word's face, none matched |
| CardDeck.DealtDeck | src/lib/components/games/MemoryGame.tsx:119 | any shuffle of the dealt cards is such a deck |
| CardDeck.InDealt | src/lib/components/games/MemoryGame.tsx:119 | every card of a shuffle is one of the dealt cards |
| CardDeck.DealtHasCard | src/lib/components/games/MemoryGame.tsx:104-118 | every id below the word count has both its English and its Vietnamese card in any shuffle |
| CardDeck.SameFaceSameCard | src/lib/components/games/MemoryGame.tsx:104-118 | in the dealt sequence id and side fix the position |
| CardDeck.DealtDistinct | src/lib/components/games/MemoryGame.tsx:104-118 | the dealt cards are pairwise different |
| CardDeck.DistinctTransfer | src/lib/components/games/MemoryGame.tsx:119 | a permutation of a repeat-free sequence is repeat-free |
| CardDeck.AtMostOnce | src/lib/components/games/MemoryGame.tsx:119 | a repeat-free sequence holds each value at most once |
| CardDeck.Twice | src/lib/components/games/MemoryGame.tsx:119 | two positions holding one value count it twice |
| CardDeck.MatchShowsPair | src/lib/components/games/MemoryGame.tsx:174 | two matching cards show exactly the word and the meaning of one word |
| CardDeck.MarkPair | src/lib/components/games/MemoryGame.tsx:177-179 | the two cards are marked matched and every other card is kept |
| CardDeck.MarkPairKeepsDeck | src/lib/components/games/MemoryGame.tsx:177-180 | marking keeps the deck: ids and sides are untouched |
| CardDeck.MarkPairMarks | src/lib/components/games/MemoryGame.tsx:177-181 | after a match, recording its id keeps the recorded ids equal to the ids of the matched cards |
| CardDeck.MarkPairShows | src/lib/components/games/MemoryGame.tsx:177-180 | marking keeps every card's face |
| CardDeck.Below | src/lib/components/games/MemoryGame.tsx:106 | the ids 0 .. n-1 |
| CardDeck.BelowSize | src/lib/components/games/MemoryGame.tsx:106 | there are n of them |
| CardDeck.ElementsSize | src/lib/components/games/MemoryGame.tsx:181 | a repeat-free list of ids has as many distinct ids as entries |
| CardDeck.FullSubset | src/lib/components/games/MemoryGame.tsx:184 | a subset as large as its superset is all of it |
| CardDeck.PairsBelow | src/lib/components/games/MemoryGame.tsx:181-184 | no more pairs are recorded than the deck holds |
| CardDeck.AllMatchedIffAllPairs | src/lib/components/games/MemoryGame.tsx:184 | as many recorded pairs as the deck holds exactly when every card is matched |
| MemoryGame.Faces | src/lib/components/games/MemoryGame.tsx:104-117 | one face per drawn word, in order |
| MemoryGame.CreateGameData | src/lib/components/games/MemoryGame.tsx:98-120 | min(num, word count) distinct words drawn from the list, dealt as a shuffled deck showing their words and meanings, none matched |
| MemoryGame.Clicked | src/lib/components/games/MemoryGame.tsx:150-167 | ignored when not playing, on a matched or face-up card, or with two selected; otherwise the card turns up and is selected, and a second selection counts a move |
| MemoryGame.ClickedConsistent | src/lib/components/games/MemoryGame.tsx:150-167 | a click keeps the board consistent: at most two selected unmatched cards, all face up, recorded pairs equal to matched ids |
| MemoryGame.Checked | src/lib/components/games/MemoryGame.tsx:169-199 | a matching pair is marked and its id recorded; two other cards are turned down; the selection empties and the moves are kept |
| MemoryGame.CheckedStore | src/lib/components/games/MemoryGame.tsx:182-192 | a match records a right answer, anything else a wrong one |
| MemoryGame.CheckedConsistent | src/lib/components/games/MemoryGame.tsx:169-199 | a check keeps the board consistent |
| MemoryGame.CheckedShows | src/lib/components/games/MemoryGame.tsx:177-179 | a check keeps every card's face |
| MemoryGame.OverMeansAllMatched | src/lib/components/games/MemoryGame.tsx:184-186 | when the recorded pairs reach `numQuestions` the deck has that many pairs and every card is matched |
| MemoryGame.NewGame | src/lib/components/games/MemoryGame.tsx:122-134 | a fresh consistent board dealt from min(numQuestions, word count) drawn words, nothing selected or matched, no moves, the store reset with `numQuestions` as total |
| MemoryGame.MemoryGameCore.constructor | src/lib/components/games/MemoryGame.tsx:37-62 | nothing started, `numQuestions` defaulting to min(word count, 8), the store's total set then reset |
| MemoryGame.MemoryGameCore.Tick | src/lib/components/games/MemoryGame.tsx:70-75 | one interval tick adds a second and changes nothing else |
| MemoryGame.MemoryGameCore.StartGame | src/lib/components/games/MemoryGame.tsx:122-136 | a running game as `NewGame` describes, the clock restarted at zero |
| MemoryGame.MemoryGameCore.RestartGame | src/lib/components/games/MemoryGame.tsx:138-148 | back to the start screen with an empty board and the store reset; the clock stops and keeps its reading |
| MemoryGame.MemoryGameCore.CardClick | src/lib/components/games/MemoryGame.tsx:150-167 | the board becomes `Clicked` of the old one; nothing else changes |
| MemoryGame.MemoryGameCore.CheckMatch | src/lib/components/games/MemoryGame.tsx:169-199 | the board and store become `Checked` and `CheckedStore`; the game ends and the clock stops exactly when a match completes `numQuestions` pairs |
| MemoryGame.MemoryGameCore.AllMatchedWhenOver | src/lib/components/games/MemoryGame.tsx:333 | whenever the results dialog shows, every card is matched |
| MemoryGame.MemoryGameCore.CloseResults | src/lib/components/games/MemoryGame.tsx:339 | the results dialog closes; nothing else changes |
| MatchingGame.Faces | src/lib/components/games/MatchingGame.tsx:88-100 | one face per word, in order, without a picture |
| MatchingGame.CreateGameData | src/lib/components/games/MatchingGame.tsx:86-103 | every word dealt as a pair, shuffled: a deck showing the words and meanings, none matched |
| MatchingGame.Clicked | src/lib/components/games/MatchingGame.tsx:128-139 | ignored when not playing, on a matched or already selected card, or with two selected; otherwise the card is selected |
| MatchingGame.ClickedConsistent | src/lib/components/games/MatchingGame.tsx:128-139 | a click keeps the board consistent |
| MatchingGame.Checked | src/lib/components/games/MatchingGame.tsx:141-163 | a matching pair is marked and its id recorded, anything else leaves the cards; the selection empties |
| MatchingGame.CheckedStore | src/lib/components/games/MatchingGame.tsx:153-160 | a match records a right answer, anything else a wrong one |
| MatchingGame.CheckedConsistent | src/lib/components/games/MatchingGame.tsx:141-163 | a check keeps the board consistent |
| MatchingGame.CheckedShows | src/lib/components/games/MatchingGame.tsx:148-150 | a check keeps every card's face |
| MatchingGame.CompletesIffLastPair | src/lib/components/games/MatchingGame.tsx:154-157 | a check ends the game exactly when it leaves every card matched |
| MatchingGame.NewGame | src/lib/components/games/MatchingGame.tsx:105-116 | a fresh consistent board with every word's pair, nothing selected or matched, the store reset with the word count as total |
| MatchingGame.MatchingGameCore.constructor | src/lib/components/games/MatchingGame.tsx:31-51 | nothing started; the mount effect sets the store's total to the word count |
| MatchingGame.MatchingGameCore.Tick | src/lib/components/games/MatchingGame.tsx:58-63 | one interval tick adds a second and changes nothing else |
| MatchingGame.MatchingGameCore.StartGame | src/lib/components/games/MatchingGame.tsx:105-116 | a running game as `NewGame` describes, the clock restarted at zero |
| MatchingGame.MatchingGameCore.RestartGame | src/lib/components/games/MatchingGame.tsx:118-126 | back to the start screen with an empty board and the store reset; the clock stops and keeps its reading |
| MatchingGame.MatchingGameCore.CardClick | src/lib/components/games/MatchingGame.tsx:128-139 | the board becomes `Clicked` of the old one; nothing else changes |
| MatchingGame.MatchingGameCore.CheckMatch | src/lib/components/games/MatchingGame.tsx:141-163 | the board and store become `Checked` and `CheckedStore`; the game ends and the clock stops exactly when the last pair is matched |
| MatchingGame.MatchingGameCore.AllMatchedWhenOver | src/lib/components/games/MatchingGame.tsx:251 | whenever the results dialog shows, every card is matched |
| MatchingGame.MatchingGameCore.CloseResults | src/lib/components/games/MatchingGame.tsx:257 | the results dialog closes; nothing else changes |
| ClassicQuiz.FeedbackText | src/lib/components/activities/ClassicQuizGame.tsx:120-137 | the feedback line is empty exactly when there is no verdict, and a wrong answer's line contains the expected answer |
| ClassicQuiz.JudgedOnOwnInput | src/lib/components/activities/ClassicQuizGame.tsx:109-116 | a blank is judged on the typed text alone, any other question on the chosen option alone, right exactly when that option is the expected answer and never without one |
| ClassicQuiz.BlankAcceptsItsAnswer | src/lib/components/activities/ClassicQuizGame.tsx:110-113 | a blank accepts its unpadded answer typed with surrounding spaces or in capitals |
| ClassicQuiz.WithQuestion | src/lib/components/activities/ClassicQuizGame.tsx:95-143 | a drawn question with nothing typed, chosen or shown and not submitting, the counters kept |
| ClassicQuiz.Submitted | src/lib/components/activities/ClassicQuizGame.tsx:104-134 | nothing without a question or while submitting; otherwise the round locks and exactly one counter rises, the right one by the verdict, with matching feedback |
| ClassicQuiz.SubmittedStore | src/lib/components/activities/ClassicQuizGame.tsx:122-131 | a submission records one right or one wrong answer in the store, by the verdict |
| ClassicQuiz.SubmitOnce | src/lib/components/activities/ClassicQuizGame.tsx:105 | submitting twice counts once |
| ClassicQuiz.SubmitKeepsAgreement | src/lib/components/activities/ClassicQuizGame.tsx:121-131 | the on-screen counters keep agreeing with the store's |
| ClassicQuiz.ClassicQuizGameCore.constructor | src/lib/components/activities/ClassicQuizGame.tsx:44-65 | not started, no question, both counters 0 |
| ClassicQuiz.ClassicQuizGameCore.RandomQuestion | src/lib/components/activities/ClassicQuizGame.tsx:74-84 | the drawn question is an entry of the list |
| ClassicQuiz.ClassicQuizGameCore.StartGame | src/lib/components/activities/ClassicQuizGame.tsx:87-101 | both counters 0, the store reset, and a question of the list drawn with nothing typed or chosen |
| ClassicQuiz.ClassicQuizGameCore.TypeAnswer | src/lib/components/activities/ClassicQuizGame.tsx:251-255 | the typed text changes unless submitting |
| ClassicQuiz.ClassicQuizGameCore.SelectOption | src/lib/components/activities/ClassicQuizGame.tsx:277-296 | the chosen option changes unless submitting |
| ClassicQuiz.ClassicQuizGameCore.SubmitAnswer | src/lib/components/activities/ClassicQuizGame.tsx:104-134 | the round and store become `Submitted` and `SubmittedStore` of the old ones |
| ClassicQuiz.ClassicQuizGameCore.KeyDown | src/lib/components/activities/ClassicQuizGame.tsx:252-253 | Enter submits as `SubmitAnswer` does; any other key changes nothing |
| ClassicQuiz.ClassicQuizGameCore.NextQuestion | src/lib/components/activities/ClassicQuizGame.tsx:136-144 | after 2 s a new question of the list with the inputs cleared and the counters kept |
| ClassicQuiz.ClassicQuizGameCore.ReplayAudio | src/lib/components/activities/ClassicQuizGame.tsx:148-153 | the word spoken is the current question's word, if any |
| Cloze.FindFrom | src/lib/components/games/ClozeGame.tsx:37 | the first position at or after `from` where the separator occurs, with none in between, or none at all |
| Cloze.PrefixFree | src/lib/components/games/ClozeGame.tsx:37 | the text before the first occurrence holds none |
| Cloze.SplitOn | src/lib/components/games/ClozeGame.tsx:37 | splitting always yields at least one piece |
| Cloze.SplitOnPieces | src/lib/components/games/ClozeGame.tsx:37 | no piece holds the separator, and there is a single piece exactly when the text holds none |
| Cloze.JoinSplitOn | src/lib/components/games/ClozeGame.tsx:37 | joining the pieces back with the separator gives the text |
| Cloze.BlanksCountGaps | src/lib/components/games/ClozeGame.tsx:37-57 | no piece holds a gap, and there are no text boxes exactly when the paragraph has no gap |
| Cloze.PiecesRebuildParagraph | src/lib/components/games/ClozeGame.tsx:53-72 | the pieces with a gap between each pair are the paragraph |
| Cloze.InitialAnswers | src/lib/components/games/ClozeGame.tsx:20-22 | one empty answer per word |
| Cloze.EveryVerdicts | src/lib/components/games/ClozeGame.tsx:25-28 | the scan from an index is correct exactly when every answer from there passes (a hole, or a typed answer matching the word of its index); it is wrong only at a typed answer that fails its word, and throws only at `undefined` or at a typed answer past the word list |
| Cloze.CheckPassesWhenSolved | src/lib/components/games/ClozeGame.tsx:25-28 | the check passes exactly when every answer passes |
| Cloze.TypingTheWordsSolves | src/lib/components/games/ClozeGame.tsx:25-28 | typing each listed word, with or without surrounding spaces, passes the check when no word has surrounding spaces |
| Cloze.EmptyAnswerPassesOnlyEmptyWord | src/lib/components/games/ClozeGame.tsx:27 | an untouched box passes only for an empty word |
| Cloze.Edited | src/lib/components/games/ClozeGame.tsx:60-65 | the edited box holds the typed value; inside the array every other answer is kept, with holes turned into `undefined` by the copy; past the end the array grows to the edited box, with holes in between |
| Cloze.ClozeGame.constructor | src/lib/components/games/ClozeGame.tsx:18-22 | one empty answer per word, not closed |
| Cloze.ClozeGame.Edit | src/lib/components/games/ClozeGame.tsx:56-66 | typing in any shown box, including one past the word list, gives the edited answers; the game stays open or closed as it was, and the answers keep their shape: strings for the words, empty past the last gap |
| Cloze.ClozeGame.CheckAnswers | src/lib/components/games/ClozeGame.tsx:24-35 | when the check passes, which is exactly when the game is solved, the game closes with the congratulation; a wrong answer shows the retry message and changes nothing; a check that throws shows nothing and changes nothing |
| Cloze.ClozeGame.FewerGapsNeverSolved | src/lib/components/games/ClozeGame.tsx:20-56 | with fewer gaps than words, a non-empty word past the last gap has no box, so the check can never pass |
| Cloze.ClozeGame.TypedPastWordsNeverPasses | src/lib/components/games/ClozeGame.tsx:25-28 | with more gaps than words, typing in a box past the word list means the check never passes |
| Cloze.ClozeGame.Close | src/lib/components/games/ClozeGame.tsx:89-94 | the game closes with the answers kept |
| SlideDeck.JsRem | src/lib/components/presentation/PresentationShell.tsx:40 | JavaScript's remainder for a positive divisor: strictly within one divisor of zero, with the sign of the dividend, and one subtraction between one and two divisors |
| SlideDeck.ModOnce | src/lib/components/presentation/PresentationShell.tsx:40 | between one and two divisors the remainder is one subtraction |
| SlideDeck.MulSign | src/lib/components/presentation/PresentationShell.tsx:40 | the sign facts of a multiple that bound the remainder |
| SlideDeck.MulNonNegative | src/lib/components/presentation/PresentationShell.tsx:40 | a non-negative multiple of a positive divisor is non-negative |
| SlideDeck.Wrap | src/lib/components/presentation/PresentationShell.tsx:39-41 | `(n + total) % total`: an index up to one lap below zero wraps to the end, one in range is kept, `total` wraps to 0; further below zero it stays at or below 0, as JavaScript's remainder gives |
| SlideDeck.WrapEnds | src/lib/components/presentation/PresentationShell.tsx:39-59 | next from the last slide is the first, previous from the first is the last |
| SlideDeck.NextPreviousInverse | src/lib/components/presentation/PresentationShell.tsx:56-59 | next then previous, or previous then next, returns to the same slide |
| SlideDeck.KeyNav | src/lib/components/presentation/PresentationShell.tsx:55-63 | Right/Down go next, Left/Up go previous, Escape closes an open outline, each exactly on those keys |
| SlideDeck.SwipeNav | src/lib/components/presentation/PresentationShell.tsx:76-85 | a swipe more than 50 pixels to the left goes next, more than 50 to the right goes previous, and it never closes the outline |
| SlideDeck.Step | src/lib/components/presentation/PresentationShell.tsx:39-63 | from an in-range slide next and previous stay in range, wrapping at the ends; closing the outline or nothing keeps the slide |
| SlideDeck.ExactlyOneActive | src/lib/components/presentation/PresentationShell.tsx:205 | exactly the current slide is active |
| SlideDeck.PresentationShell.constructor | src/lib/components/presentation/PresentationShell.tsx:9-70 | slide 0 of `slides.length`, outline closed, touches at 0 |
| SlideDeck.PresentationShell.ShowSlide | src/lib/components/presentation/PresentationShell.tsx:39-41 | the slide becomes the wrapped index; nothing else changes |
| SlideDeck.PresentationShell.ToggleOutline | src/lib/components/presentation/PresentationShell.tsx:44-46 | the outline flips; nothing else changes |
| SlideDeck.PresentationShell.GoToSlide | src/lib/components/presentation/PresentationShell.tsx:48-51 | the slide is set as given, with no range check, and the outline closes |
| SlideDeck.PresentationShell.KeyDown | src/lib/components/presentation/PresentationShell.tsx:54-66 | the slide moves as `Step` of the key's request and the outline closes exactly on Escape while open |
| SlideDeck.PresentationShell.TouchStart | src/lib/components/presentation/PresentationShell.tsx:72-74 | only the start position changes |
| SlideDeck.PresentationShell.TouchEnd | src/lib/components/presentation/PresentationShell.tsx:76-85 | the end position is stored, and the slide moves by the swipe computed from the previous touch's end position |
| SlideDeck.PresentationShell.IsActive | src/lib/components/presentation/PresentationShell.tsx:205 | a slide is active exactly when it is the current one |
| ContinuousLesson.ZoomShown | src/routes/lessons/everybody-up-0/unit-1/PresentContinuousLesson.tsx:39-43 | the popup opens only on a screen wider than 768 pixels and never while the hide flag is stored |
| ContinuousLesson.PresentContinuousLesson.constructor | src/routes/lessons/everybody-up-0/unit-1/PresentContinuousLesson.tsx:19-43 | a sixteen-slide deck at slide 0, the popup as `ZoomShown` decides |
| ContinuousLesson.PresentContinuousLesson.DismissZoomInstructions | src/routes/lessons/everybody-up-0/unit-1/PresentContinuousLesson.tsx:103-106 | the popup closes and the hide flag is stored as "true" |
| ContinuousLesson.DismissIsPermanent | src/routes/lessons/everybody-up-0/unit-1/PresentContinuousLesson.tsx:41-105 | once dismissed the popup never opens again, whatever the screen |
| ContinuousLesson.SixteenSlidesWrap | src/routes/lessons/everybody-up-0/unit-1/PresentContinuousLesson.tsx:23-56 | over sixteen slides, next from 15 is 0, previous from 0 is 15, and next from any other is one more |
| UnitOnePresentation.InitialExercises | src/routes/lessons/everybody-up-0/unit-1/presentation.tsx:14-36 | exactly the fifteen exercise ids have a record, each blank |
| UnitOnePresentation.InitialSlide | src/routes/lessons/everybody-up-0/unit-1/presentation.tsx:132-142 | always one of the sixteen slides: the 1-based `slide` parameter when `parseInt` reads a number from 1 to 16, otherwise slide 0 |
| UnitOnePresentation.InitialSlideRoundTrip | src/routes/lessons/everybody-up-0/unit-1/presentation.tsx:132-149 | reloading on the URL the deck writes reopens the same slide |
| UnitOnePresentation.Edited | src/routes/lessons/everybody-up-0/unit-1/presentation.tsx:170-180 | typing stores the text and clears the verdict of that exercise, creating its record if missing; every other record stays |
| UnitOnePresentation.InputChecked | src/routes/lessons/everybody-up-0/unit-1/presentation.tsx:183-202 | a known id is checked and correct exactly when its trimmed, lowered text without '.' and '?' equals the lowered answer without them; an unknown id changes nothing |
| UnitOnePresentation.ChoiceChecked | src/routes/lessons/everybody-up-0/unit-1/presentation.tsx:205-220 | the record becomes the chosen option, checked, correct exactly when it equals the answer ignoring case; every other record stays |
| UnitOnePresentation.ChoiceIgnoresCase | src/routes/lessons/everybody-up-0/unit-1/presentation.tsx:210-211 | choosing the answer in capitals is correct |
| UnitOnePresentation.InputAnswersUnpadded | src/routes/lessons/everybody-up-0/unit-1/presentation.tsx:595-1213 | none of the expected typed answers starts or ends with white space |
| UnitOnePresentation.TypedAnswerAccepted | src/routes/lessons/everybody-up-0/unit-1/presentation.tsx:183-202 | typing an exercise's answer padded, lowered or followed by '.' or '?', then checking it, marks it correct |
| UnitOnePresentation.StaleKeyboardCounterexample | src/routes/lessons/everybody-up-0/unit-1/presentation.tsx:222-246 | the key handler registered at mount sees slide 0: ArrowRight leads to 1 and ArrowLeft to 15 even from slide 5, where the current state gives 6 and 4; Escape never closes the outline |
| UnitOnePresentation.Presentation.constructor | src/routes/lessons/everybody-up-0/unit-1/presentation.tsx:222-225 | the deck opens on `InitialSlide` of the URL's parameter, outline closed, every exercise blank, the URL untouched |
| UnitOnePresentation.Presentation.ShowSlide | src/routes/lessons/everybody-up-0/unit-1/presentation.tsx:145-156 | the slide becomes `(n + 16) % 16` and its 1-based number is written to the URL |
| UnitOnePresentation.Presentation.ToggleOutline | src/routes/lessons/everybody-up-0/unit-1/presentation.tsx:159-161 | the outline flips; nothing else changes |
| UnitOnePresentation.Presentation.GoToSlide | src/routes/lessons/everybody-up-0/unit-1/presentation.tsx:164-167 | the slide is shown and written to the URL, and the outline closes |
| UnitOnePresentation.Presentation.HandleExerciseInputChange | src/routes/lessons/everybody-up-0/unit-1/presentation.tsx:170-180 | the records become `Edited` of the old ones |
| UnitOnePresentation.Presentation.CheckInput | src/routes/lessons/everybody-up-0/unit-1/presentation.tsx:183-202 | the records become `InputChecked` of the old ones |
| UnitOnePresentation.Presentation.CheckMCQ | src/routes/lessons/everybody-up-0/unit-1/presentation.tsx:205-220 | the records become `ChoiceChecked` of the old ones |
| UnitOnePresentation.Presentation.KeyDownAsWritten | src/routes/lessons/everybody-up-0/unit-1/presentation.tsx:222-246 | the registered handler moves from the mount-time slide 0, writing the URL, and never closes the outline |
| UnitOnePresentation.Presentation.KeyDown | src/routes/lessons/everybody-up-0/unit-1/presentation.tsx:230-238 | read against the current state: the slide moves as `Step` of the key and Escape closes an open outline |
| UnitOnePresentation.Presentation.TouchStart | src/routes/lessons/everybody-up-0/unit-1/presentation.tsx:253-255 | only the start position changes |
| UnitOnePresentation.Presentation.TouchEnd | src/routes/lessons/everybody-up-0/unit-1/presentation.tsx:257-266 | the swipe, computed from this touch's own end, moves the slide as `Step` says and writes the URL when it moves |
| ImageReveal.TileIdsDiffer | src/lib/components/games/ImageRevealChoiceGame.tsx:197 | tiles of different cells get different `${r}-${c}` ids |
| ImageReveal.Grid | src/lib/components/games/ImageRevealChoiceGame.tsx:193-217 | sixteen tiles row by row, each with its cell's id, all different |
| ImageReveal.Points | src/lib/components/games/ImageRevealChoiceGame.tsx:156-159 | ten points less one per opened tile, never less than one: 10 − n up to nine tiles, 1 from nine on |
| ImageReveal.PointsFall | src/lib/components/games/ImageRevealChoiceGame.tsx:156-159 | opening more tiles never earns more |
| ImageReveal.CreateQuestions | src/lib/components/games/ImageRevealChoiceGame.tsx:92-106 | one question per vocabulary item in some order, each with its word among options drawn from the other words |
| ImageReveal.StartPlay | src/lib/components/games/ImageRevealChoiceGame.tsx:108-119 | the new questions from the first, score 0, cover closed, nothing chosen, no feedback |
| ImageReveal.TileClicked | src/lib/components/games/ImageRevealChoiceGame.tsx:141-146 | the tile opens unless the question is answered; an open tile stays open |
| ImageReveal.TileClickIdempotent | src/lib/components/games/ImageRevealChoiceGame.tsx:142 | clicking a tile twice is clicking it once |
| ImageReveal.Clicked | src/lib/components/games/ImageRevealChoiceGame.tsx:148-166 | ignored once answered; otherwise the option is chosen and the feedback shown, a right answer adds `Points` of the opened tiles, a wrong one adds nothing and shows the right word; the cover is kept |
| ImageReveal.ClickedStore | src/lib/components/games/ImageRevealChoiceGame.tsx:161-164 | a first click records one right or one wrong answer by the verdict |
| ImageReveal.ClickEarnings | src/lib/components/games/ImageRevealChoiceGame.tsx:149-160 | a right click earns 1 to 10 points, a wrong one none, and only the first click of a question counts |
| ImageReveal.Advanced | src/lib/components/games/ImageRevealChoiceGame.tsx:173-181 | the next question with the cover closed again, nothing chosen, no feedback, the score kept |
| ImageReveal.OptionLook | src/lib/components/games/ImageRevealChoiceGame.tsx:219-240 | before the verdict only the chosen option is highlighted; after it the right option is green and the chosen wrong one red, the rest plain |
| ImageReveal.OneGreen | src/lib/components/games/ImageRevealChoiceGame.tsx:219-240 | after the verdict exactly one option is green, and a red one exists only as the chosen wrong option |
| ImageReveal.NewGame | src/lib/components/games/ImageRevealChoiceGame.tsx:108-124 | a fresh play over one question per vocabulary item, and the store reset with the vocabulary size as total |
| ImageReveal.ImageRevealGame.constructor | src/lib/components/games/ImageRevealChoiceGame.tsx:31-56 | nothing started; the mount effect sets the store's total to the vocabulary size and then resets it |
| ImageReveal.ImageRevealGame.Tick | src/lib/components/games/ImageRevealChoiceGame.tsx:64-69 | one interval tick adds a second and changes nothing else |
| ImageReveal.ImageRevealGame.StartGame | src/lib/components/games/ImageRevealChoiceGame.tsx:108-124 | a running game as `NewGame` describes, the clock restarted at zero |
| ImageReveal.ImageRevealGame.RestartGame | src/lib/components/games/ImageRevealChoiceGame.tsx:126-139 | back to the start screen with no questions and the store reset; the clock stops and keeps its reading |
| ImageReveal.ImageRevealGame.TileClick | src/lib/components/games/ImageRevealChoiceGame.tsx:141-146 | the play becomes `TileClicked` of the old one; nothing else changes |
| ImageReveal.ImageRevealGame.OptionClick | src/lib/components/games/ImageRevealChoiceGame.tsx:148-171 | the play and store become `Clicked` and `ClickedStore` of the old ones |
| ImageReveal.ImageRevealGame.NextQuestion | src/lib/components/games/ImageRevealChoiceGame.tsx:173-186 | the play becomes `Advanced` when a next question exists; after the last the game ends and the clock stops |
| ImageReveal.ImageRevealGame.CloseResults | src/lib/components/games/ImageRevealChoiceGame.tsx:368 | the results panel closes; nothing else changes |
| InputExercises.Checked | src/routes/lessons/everybody-up-0/unit-1/lesson-1/-slides/Slide5.tsx:11-22 | only the checked item's feedback changes; it becomes "correct" exactly when the slide answer rule (trimmed, lower-cased, '.' and '?' dropped on both sides) matches, "incorrect" otherwise; the answers are untouched |
| InputExercises.Reset | src/routes/lessons/everybody-up-0/unit-1/lesson-1/-slides/Slide5.tsx:24-27 | the item's answer and feedback become empty; every other item's answer and feedback are as before |
| InputExercises.Pressed | src/routes/lessons/everybody-up-0/unit-1/lesson-1/-slides/Slide5.tsx:52-57 | the item's button toggles it: feedback appears when there was none and disappears when there was some |
| InputExercises.PressTwiceClears | src/routes/lessons/everybody-up-0/unit-1/lesson-1/-slides/Slide5.tsx:52-57 | from a clean item, check then reset leaves no feedback and an empty answer |
| InputExercises.PlainAnswerRule | src/routes/lessons/everybody-up-0/unit-1/lesson-1/-slides/Slide5.tsx:11-17 | for answers without '.' or '?' and without surrounding spaces the rule is plain case-insensitive equality |
| InputExercises.ApostropheKept | src/routes/lessons/everybody-up-0/unit-1/lesson-1/-slides/Slide8.tsx:89 | "isnt cooking dinner" is not accepted for "isn't cooking dinner": only '.' and '?' are dropped |
| InputExercises.InputSlide.constructor | src/routes/lessons/everybody-up-0/unit-1/lesson-1/-slides/Slide5.tsx:8-9 | a slide starts with empty answer and feedback records and its own answer table |
| InputExercises.InputSlide.Type | src/routes/lessons/everybody-up-0/unit-1/lesson-1/-slides/Slide5.tsx:45-47 | typing stores the value as that item's answer and changes nothing else |
| InputExercises.InputSlide.CheckInput | src/routes/lessons/everybody-up-0/unit-1/lesson-1/-slides/Slide5.tsx:11-22 | the new state is the checked state of the old one |
| InputExercises.InputSlide.ResetExercise | src/routes/lessons/everybody-up-0/unit-1/lesson-1/-slides/Slide5.tsx:24-27 | the new state is the reset state of the old one |
| InputExercises.InputSlide.Press | src/routes/lessons/everybody-up-0/unit-1/lesson-1/-slides/Slide5.tsx:52-57 | pressing an item of the table toggles it against the table's expected answer |
| InputExercises.Slide5Unpadded | src/routes/lessons/everybody-up-0/unit-1/lesson-1/-slides/Slide5.tsx:56-122 | no expected answer on the -ing slide has surrounding white space |
| InputExercises.Slide8Unpadded | src/routes/lessons/everybody-up-0/unit-1/lesson-1/-slides/Slide8.tsx:56-122 | no expected answer on the negative-form slide has surrounding white space |
| InputExercises.Slide10Unpadded | src/routes/lessons/everybody-up-0/unit-1/Slide10.tsx:56-122 | no expected answer on the yes/no-question slide has surrounding white space |
| InputExercises.Slide12Unpadded | src/routes/lessons/everybody-up-0/unit-1/Slide12.tsx:56-122 | no expected answer on the wh-question slide has surrounding white space |
| InputExercises.InputTables | src/routes/lessons/everybody-up-0/unit-1/lesson-1/exercises.tsx:707 | there are four typed-answer tables and none of their answers is padded |
| InputExercises.OwnAnswerAccepted | src/routes/lessons/everybody-up-0/unit-1/lesson-1/-slides/Slide5.tsx:11-17 | on every typed-answer slide the expected answer itself, surrounded by spaces, lower-cased or followed by '.' or '?', is marked correct |
| InputExercises.Clicked | src/routes/lessons/everybody-up-0/unit-1/Slide14.tsx:11-21 | a locked item (feedback present) ignores the click; otherwise the option becomes the selection and the feedback is "correct" exactly when it equals the answer, letter case included; other items are unchanged |
| InputExercises.ChoiceReset | src/routes/lessons/everybody-up-0/unit-1/Slide14.tsx:23-26 | the item's selection and feedback are cleared and no other item changes |
| InputExercises.OneAnswerPerRound | src/routes/lessons/everybody-up-0/unit-1/Slide14.tsx:42-58 | the options are disabled once feedback exists, so a second click before a reset changes nothing |
| InputExercises.ResetUnlocks | src/routes/lessons/everybody-up-0/unit-1/Slide14.tsx:70-77 | after "Làm lại" the item accepts a new option |
| InputExercises.ChoiceSlide.constructor | src/routes/lessons/everybody-up-0/unit-1/Slide14.tsx:8-9 | the tense-choice slide starts with empty selection and feedback records |
| InputExercises.ChoiceSlide.Click | src/routes/lessons/everybody-up-0/unit-1/Slide14.tsx:42-46 | the new state is the clicked state of the old one |
| InputExercises.ChoiceSlide.ResetMCQ | src/routes/lessons/everybody-up-0/unit-1/Slide14.tsx:23-26 | the new state is the reset state of the old one |
| InputExercises.ExercisesActivity | src/routes/lessons/everybody-up-0/unit-1/lesson-1/exercises.tsx:706-715 | the activity is a fresh, valid presentation of exactly the five exercise slides, opened on slide 5 |
| LessonEdit.ContentItem.constructor | src/lib/components/admin/LessonEditModal.tsx:51-55 | an external content item holds the id, URL and optional title it was made with |
| LessonEdit.WithVocab | src/lib/components/admin/LessonEditModal.tsx:136-139 | with a lesson loaded only the vocabulary field is replaced, every other field is kept; with none loaded the state stays empty |
| LessonEdit.WithMenu | src/lib/components/admin/LessonEditModal.tsx:136-139 | with a lesson loaded only the menu field is replaced, every other field is kept; with none loaded the state stays empty |
| LessonEdit.WithPages | src/lib/components/admin/LessonEditModal.tsx:136-139 | with a lesson loaded only the pages field is replaced, every other field is kept; with none loaded the state stays empty |
| LessonEdit.RemoveAt | src/lib/components/admin/LessonEditModal.tsx:213 | filtering out an index in range drops exactly that element and keeps the others in order; an index out of range changes nothing |
| LessonEdit.AddVocabItem | src/lib/components/admin/LessonEditModal.tsx:192-202 | the vocabulary gains one blank item at the end; with no lesson loaded nothing happens; every other field of the lesson is kept |
| LessonEdit.EditVocabItem | src/lib/components/admin/LessonEditModal.tsx:204-210 | the row at the index is replaced by the item; the length and every other row are kept; every other field of the lesson is kept |
| LessonEdit.DeleteVocabItem | src/lib/components/admin/LessonEditModal.tsx:212-215 | the vocabulary loses the row at the index and nothing else; every other field of the lesson is kept |
| LessonEdit.AddMenuItem | src/lib/components/admin/LessonEditModal.tsx:218-225 | the menu gains an "activity"/"vocabulary" item at the end; with no lesson loaded nothing happens; every other field of the lesson is kept |
| LessonEdit.DeleteMenuItem | src/lib/components/admin/LessonEditModal.tsx:227-230 | the menu loses the row at the index and nothing else; every other field of the lesson is kept |
| LessonEdit.SetMenuType | src/lib/components/admin/LessonEditModal.tsx:293-299 | only the type of the chosen menu row changes; its id and all other rows are kept; every other field of the lesson is kept |
| LessonEdit.SetMenuId | src/lib/components/admin/LessonEditModal.tsx:309-315 | only the id of the chosen menu row changes; its type and all other rows are kept; every other field of the lesson is kept |
| LessonEdit.AddPage | src/lib/components/admin/LessonEditModal.tsx:433-447 | the pages gain one new page, named after the clock reading, at the end; every other field of the lesson is kept |
| LessonEdit.SetPageId | src/lib/components/admin/LessonEditModal.tsx:456-463 | only the id of the chosen page changes; every other page is kept; every other field of the lesson is kept |
| LessonEdit.SetPageTitle | src/lib/components/admin/LessonEditModal.tsx:466-473 | only the title of the chosen page changes; every other page is kept; every other field of the lesson is kept |
| LessonEdit.SetPageRoot | src/lib/components/admin/LessonEditModal.tsx:476-488 | text that does not parse leaves the lesson unchanged; parsed content replaces only the chosen page's content tree; every other field of the lesson is kept |
| LessonEdit.DeletePage | src/lib/components/admin/LessonEditModal.tsx:492-500 | the pages lose the page at the index and nothing else; every other field of the lesson is kept |
| LessonEdit.DeleteKeepsOthers | src/lib/components/admin/LessonEditModal.tsx:213 | a deletion is the list without that one row: the rows before and after are kept in order, and only the deleted row leaves the multiset |
| LessonEdit.AddThenDeleteVocab | src/lib/components/admin/LessonEditModal.tsx:192-215 | adding a vocabulary row and then deleting it gives the lesson back |
| LessonEdit.AddThenDeleteMenu | src/lib/components/admin/LessonEditModal.tsx:218-230 | adding a menu row and then deleting it gives the lesson back |
| LessonEdit.EditExternal | src/lib/components/admin/LessonEditModal.tsx:335-415 | the edit writes the id or the URL into the shared content item itself, leaving its other fields; the returned record is the same lesson, so the copy and the original both show the edit |
| LessonEdit.SaveFile | src/lib/components/admin/LessonEditModal.tsx:108-121 | the form values are filed under the lesson's name alone, and the file is named after the lesson with ".json" |
| ListeningSentenceTyping.WithSentence | src/lib/components/games/ListeningSentenceTypingGame.tsx:113 | the filter drops exactly the questions with an empty sentence and keeps every other one |
| ListeningSentenceTyping.CreateQuestions | src/lib/components/games/ListeningSentenceTypingGame.tsx:103-114 | at most `num` questions, none empty, drawn without repetition from the items' sentences; when `num` covers every item, exactly the items with a sentence, each once |
| ListeningSentenceTyping.DropFromSum | src/lib/components/games/ListeningSentenceTypingGame.tsx:109-113 | taking every empty question out of a prefix of the shuffled list leaves no more than taking them out of the whole list |
| ListeningSentenceTyping.VerbatimRight | src/lib/components/games/ListeningSentenceTypingGame.tsx:170-178 | an unpadded sentence typed as it is, in capitals, or with white space around it is judged right |
| ListeningSentenceTyping.PaddedSentenceWrong | src/lib/components/games/ListeningSentenceTypingGame.tsx:170-176 | a sentence stored with a trailing space can never be answered right, even by typing it verbatim, because only the typed text is trimmed |
| ListeningSentenceTyping.TrimTrailingSpace | src/lib/components/games/ListeningSentenceTypingGame.tsx:171 | trimming removes a trailing space from an unpadded word |
| ListeningSentenceTyping.LowerLettersKept | src/lib/components/games/ListeningSentenceTypingGame.tsx:174-176 | lower-case letters and spaces pass the expected-text normalisation unchanged |
| ListeningSentenceTyping.CorrectedVerbatimRight | src/lib/components/games/ListeningSentenceTypingGame.tsx:170-178 | with the expected text trimmed as well, every sentence typed verbatim, in capitals or padded is right, padded sentences included |
| ListeningSentenceTyping.StartPlay | src/lib/components/games/ListeningSentenceTypingGame.tsx:116-127 | a new round starts on the first question with score 0, no input, no feedback and no audio; a current question exists exactly when there are questions |
| ListeningSentenceTyping.Typed | src/lib/components/games/ListeningSentenceTypingGame.tsx:325-327 | the input is ignored while a round is being answered and otherwise stores the text |
| ListeningSentenceTyping.Spoken | src/lib/components/games/ListeningSentenceTypingGame.tsx:151-158 | a sentence is spoken exactly when no audio plays and a question is current, and it is that question's sentence |
| ListeningSentenceTyping.Submitted | src/lib/components/games/ListeningSentenceTypingGame.tsx:166-188 | a submission while answering or without a question is ignored; otherwise the round locks, and the score rises by one exactly when the normalised texts agree, with matching feedback |
| ListeningSentenceTyping.SubmittedStore | src/lib/components/games/ListeningSentenceTypingGame.tsx:178-185 | the shared store records one correct answer for a right submission, one incorrect answer for a wrong one, and nothing for an ignored one |
| ListeningSentenceTyping.SubmitOnce | src/lib/components/games/ListeningSentenceTypingGame.tsx:166-169 | a second submission changes neither the game nor the store |
| ListeningSentenceTyping.Advanced | src/lib/components/games/ListeningSentenceTypingGame.tsx:198-204 | moving on opens the next question with the score kept, empty input, no feedback and no audio |
| ListeningSentenceTyping.NewGame | src/lib/components/games/ListeningSentenceTypingGame.tsx:116-131 | a new game holds at most `num` non-empty questions drawn from the items, starts fresh, and resets the store with the question count as total |
| ListeningSentenceTyping.ListeningSentenceGame.constructor | src/lib/components/games/ListeningSentenceTypingGame.tsx:32-60 | mounting keeps the items and the question count (all items by default), leaves the game unstarted, and sets the store total to the item count before resetting it |
| ListeningSentenceTyping.ListeningSentenceGame.Tick | src/lib/components/games/ListeningSentenceTypingGame.tsx:75-80 | one timer tick adds a second and changes nothing else |
| ListeningSentenceTyping.ListeningSentenceGame.StartGame | src/lib/components/games/ListeningSentenceTypingGame.tsx:116-149 | start and restart both begin a new game with the clock at 0 and running |
| ListeningSentenceTyping.ListeningSentenceGame.TypeAnswer | src/lib/components/games/ListeningSentenceTypingGame.tsx:325-327 | typing changes the input as `Typed` says and nothing else |
| ListeningSentenceTyping.ListeningSentenceGame.PlaySentence | src/lib/components/games/ListeningSentenceTypingGame.tsx:151-158 | the sentence spoken is `Spoken`'s, and the audio mark is set only when something is spoken |
| ListeningSentenceTyping.ListeningSentenceGame.AudioFinished | src/lib/components/games/ListeningSentenceTypingGame.tsx:161-163 | the 3-second timeout clears the audio mark and nothing else |
| ListeningSentenceTyping.ListeningSentenceGame.SubmitAnswer | src/lib/components/games/ListeningSentenceTypingGame.tsx:166-193 | the game and the store change exactly as `Submitted` and `SubmittedStore` say |
| ListeningSentenceTyping.ListeningSentenceGame.NextQuestion | src/lib/components/games/ListeningSentenceTypingGame.tsx:195-210 | nothing happens unless a round was answered; then the next question opens, or after the last one the game is over and the clock stops |
| ListeningSentenceTyping.ListeningSentenceGame.KeyDown | src/lib/components/games/ListeningSentenceTypingGame.tsx:212-221 | Enter submits while the input is open and moves on after an answer; any other key changes nothing |
| ListeningSentenceTyping.ListeningSentenceGame.CloseResults | src/lib/components/games/ListeningSentenceTypingGame.tsx:390 | closing the results clears only the game-over flag |
| ListeningTypingEn.CreateQuestions | src/lib/components/games/ListeningTypingEnGame.tsx:94-102 | one question per item, as many as items, a reordering of the items' questions |
| ListeningTypingEn.EveryItemAsked | src/lib/components/games/ListeningTypingEnGame.tsx:94-102 | every vocabulary item is asked in a game |
| ListeningTypingEn.MappedMember | src/lib/components/games/ListeningTypingEnGame.tsx:96-100 | an item's question is among the mapped questions |
| ListeningTypingEn.SpokenText | src/lib/components/games/ListeningTypingEnGame.tsx:139-141 | the spoken text starts with the word; without a sentence it is the word alone, otherwise the word, ". " and the sentence |
| ListeningTypingEn.StartPlay | src/lib/components/games/ListeningTypingEnGame.tsx:104-114 | a new round starts on the first question with score 0, no input, no feedback and no audio; a current question exists exactly when there are questions |
| ListeningTypingEn.Typed | src/lib/components/games/ListeningTypingEnGame.tsx:288-290 | the input is ignored while a round is being answered and otherwise stores the text |
| ListeningTypingEn.Spoken | src/lib/components/games/ListeningTypingEnGame.tsx:135-143 | something is spoken exactly when no audio plays and a question is current, and it is that question's spoken text |
| ListeningTypingEn.Submitted | src/lib/components/games/ListeningTypingEnGame.tsx:151-165 | a submission while answering or without a question is ignored; otherwise the round locks, and the score rises by one exactly when the trimmed, lowered input equals the lowered word |
| ListeningTypingEn.SubmittedStore | src/lib/components/games/ListeningTypingEnGame.tsx:158-164 | the shared store records one correct answer for a right submission, one incorrect answer for a wrong one, and nothing for an ignored one |
| ListeningTypingEn.TypedWordScores | src/lib/components/games/ListeningTypingEnGame.tsx:155-159 | an unpadded word typed as stored, in capitals, or with white space around it scores a point |
| ListeningTypingEn.Advanced | src/lib/components/games/ListeningTypingEnGame.tsx:173-179 | moving on opens the next question with the score kept, empty input, no feedback and no audio |
| ListeningTypingEn.NewGame | src/lib/components/games/ListeningTypingEnGame.tsx:104-118 | a new game asks every item once in some order and resets the store with the item count as total |
| ListeningTypingEn.ListeningTypingGame.constructor | src/lib/components/games/ListeningTypingEnGame.tsx:32-58 | mounting keeps the items, leaves the game unstarted, and sets the store total to the item count before resetting it |
| ListeningTypingEn.ListeningTypingGame.Tick | src/lib/components/games/ListeningTypingEnGame.tsx:66-71 | one timer tick adds a second and changes nothing else |
| ListeningTypingEn.ListeningTypingGame.StartGame | src/lib/components/games/ListeningTypingEnGame.tsx:104-119 | every item once in a new order, the clock from 0 and running, the store reset with the item count as total |
| ListeningTypingEn.ListeningTypingGame.RestartGame | src/lib/components/games/ListeningTypingEnGame.tsx:121-133 | restarting returns to the start screen with no questions, and the clock stops but keeps its reading |
| ListeningTypingEn.ListeningTypingGame.TypeAnswer | src/lib/components/games/ListeningTypingEnGame.tsx:288-290 | typing changes the input as `Typed` says and nothing else |
| ListeningTypingEn.ListeningTypingGame.PlayWord | src/lib/components/games/ListeningTypingEnGame.tsx:135-143 | the text spoken is `Spoken`'s, and the audio mark is set only when something is spoken |
| ListeningTypingEn.ListeningTypingGame.AudioFinished | src/lib/components/games/ListeningTypingEnGame.tsx:146-148 | the 2-second timeout clears the audio mark and nothing else |
| ListeningTypingEn.ListeningTypingGame.SubmitAnswer | src/lib/components/games/ListeningTypingEnGame.tsx:151-166 | the game and the store change exactly as `Submitted` and `SubmittedStore` say |
| ListeningTypingEn.ListeningTypingGame.NextQuestion | src/lib/components/games/ListeningTypingEnGame.tsx:172-184 | the next question opens, or after the last one the game is over and the clock stops; unlike the sentence game it does not wait for an answer |
| ListeningTypingEn.ListeningTypingGame.KeyDown | src/lib/components/games/ListeningTypingEnGame.tsx:186-195 | Enter submits while the input is open and moves on after an answer; any other key changes nothing |
| ListeningTypingEn.ListeningTypingGame.CloseResults | src/lib/components/games/ListeningTypingEnGame.tsx:337 | closing the results clears only the game-over flag |
| MultipleChoice.Answered | src/lib/components/presentation/MultipleChoiceGame.tsx:47-52 | a locked slide (a non-empty word already chosen) ignores the click; otherwise the word is recorded with the verdict "equal to the correct word" |
| MultipleChoice.FirstAnswerLocks | src/lib/components/presentation/MultipleChoiceGame.tsx:47-60 | after the first non-empty answer the slide is locked: later clicks change nothing and schedule no move on |
| MultipleChoice.VerdictMatchesChoice | src/lib/components/presentation/MultipleChoiceGame.tsx:50-59 | the stored verdict is true exactly when the chosen word is the correct one, which is exactly when the move to the next slide is scheduled |
| MultipleChoice.ClassTextDistinct | src/lib/components/presentation/MultipleChoiceGame.tsx:62-73 | the four button styles are different class strings, so the colour can be read back from the class |
| MultipleChoice.AnswerDisablesButtons | src/lib/components/presentation/MultipleChoiceGame.tsx:95 | any answer, the empty word included, disables the buttons, and a locked slide always has them disabled |
| MultipleChoice.ColoursAfterAnswer | src/lib/components/presentation/MultipleChoiceGame.tsx:62-73 | after an answer the correct word is green, a wrongly chosen word red and every other option grey, and no button keeps the plain style |
| MultipleChoice.PlainBeforeAnswer | src/lib/components/presentation/MultipleChoiceGame.tsx:62-65 | before any answer every button has the plain style |
| MultipleChoice.MultipleChoiceSlide.constructor | src/lib/components/presentation/MultipleChoiceGame.tsx:25-33 | the slide holds the correct item and the options, with no options shown and no answer yet |
| MultipleChoice.MultipleChoiceSlide.Activate | src/lib/components/presentation/MultipleChoiceGame.tsx:37-45 | becoming active shows the options in some new order and clears the answer |
| MultipleChoice.MultipleChoiceSlide.AnswerClick | src/lib/components/presentation/MultipleChoiceGame.tsx:47-60 | the answer changes as `Answered` says, the option order is kept, and the move on is scheduled exactly for a right first answer |
| MultipleChoice.MultipleChoiceSlide.ButtonClass | src/lib/components/presentation/MultipleChoiceGame.tsx:62-73 | a button's class is the style of the colour its word has under the current answer |
| PictureChoiceEn.WrongAnswers | src/lib/components/games/PictureChoiceEnGame.tsx:91-103 | `count` other words, or all of them when there are fewer; never the right word, and no word more often than the lesson has it |
| PictureChoiceEn.MakeOptions | src/lib/components/games/PictureChoiceEnGame.tsx:111-113 | the options hold the right word exactly once plus up to three other lesson words, at most four in all |
| PictureChoiceEn.CreateQuestions | src/lib/components/games/PictureChoiceEnGame.tsx:105-122 | `min(num, items)` questions, each with valid options, whose right words are drawn from the lesson without repetition beyond the lesson's own |
| PictureChoiceEn.CorrectsDrawn | src/lib/components/games/PictureChoiceEnGame.tsx:109-118 | the right words of questions built from a prefix of a shuffle are among the lesson's words |
| PictureChoiceEn.CorrectsAreWords | src/lib/components/games/PictureChoiceEnGame.tsx:110-118 | the right words of the questions are the words of the items they were built from, in order |
| PictureChoiceEn.OccursOnce | src/lib/components/games/PictureChoiceEnGame.tsx:112 | a word occurring once among the options sits at exactly one position |
| PictureChoiceEn.StartPlay | src/lib/components/games/PictureChoiceEnGame.tsx:124-133 | a new round starts on the first question with score 0, nothing selected and no feedback; a current question exists exactly when there are questions |
| PictureChoiceEn.Clicked | src/lib/components/games/PictureChoiceEnGame.tsx:153-167 | a click while answering is ignored; otherwise the option is selected, feedback shows, and the score rises by one exactly when it is the right word (options are only shown for a current question) |
| PictureChoiceEn.ClickedStore | src/lib/components/games/PictureChoiceEnGame.tsx:160-167 | the shared store records one correct answer for the right word, one incorrect answer for another, and nothing for an ignored click |
| PictureChoiceEn.OneOptionScores | src/lib/components/games/PictureChoiceEnGame.tsx:153-167 | of a question's options exactly one scores, and after the first click no later click changes anything |
| PictureChoiceEn.Advanced | src/lib/components/games/PictureChoiceEnGame.tsx:174-180 | moving on opens the next question with the score kept, nothing selected and no feedback |
| PictureChoiceEn.NewGame | src/lib/components/games/PictureChoiceEnGame.tsx:124-137 | a new game holds valid questions for `min(num, items)` items and resets the store with the question count as total |
| PictureChoiceEn.PictureChoiceGame.constructor | src/lib/components/games/PictureChoiceEnGame.tsx:32-55 | mounting keeps the items and the question count (all items by default), leaves the game unstarted, and sets the store total to the item count before resetting it |
| PictureChoiceEn.PictureChoiceGame.Tick | src/lib/components/games/PictureChoiceEnGame.tsx:63-68 | one timer tick adds a second and changes nothing else |
| PictureChoiceEn.PictureChoiceGame.StartGame | src/lib/components/games/PictureChoiceEnGame.tsx:124-138 | a new game with the clock at 0 and running |
| PictureChoiceEn.PictureChoiceGame.RestartGame | src/lib/components/games/PictureChoiceEnGame.tsx:140-151 | restarting returns to the start screen with no questions, and the clock stops but keeps its reading |
| PictureChoiceEn.PictureChoiceGame.OptionClick | src/lib/components/games/PictureChoiceEnGame.tsx:153-172 | the game and the store change exactly as `Clicked` and `ClickedStore` say |
| PictureChoiceEn.PictureChoiceGame.NextQuestion | src/lib/components/games/PictureChoiceEnGame.tsx:174-185 | the next question opens, or after the last one the game is over and the clock stops |
| PictureChoiceEn.PictureChoiceGame.CloseResults | src/lib/components/games/PictureChoiceEnGame.tsx:327 | closing the results clears only the game-over flag |
| PictureTypingEn.CreateQuestions | src/lib/components/games/PictureTypingEnGame.tsx:91-98 | one question per item, as many as items, a reordering of the items' questions |
| PictureTypingEn.EveryItemAsked | src/lib/components/games/PictureTypingEnGame.tsx:91-98 | every vocabulary item is asked in a game |
| PictureTypingEn.MappedMember | src/lib/components/games/PictureTypingEnGame.tsx:92-96 | an item's question is among the mapped questions |
| PictureTypingEn.StartPlay | src/lib/components/games/PictureTypingEnGame.tsx:100-109 | a new round starts on the first question with score 0, no input and no feedback; a current question exists exactly when there are questions |
| PictureTypingEn.Typed | src/lib/components/games/PictureTypingEnGame.tsx:274-276 | the input is ignored while a round is being answered and otherwise stores the text |
| PictureTypingEn.Submitted | src/lib/components/games/PictureTypingEnGame.tsx:129-143 | a submission while answering or without a question is ignored; otherwise the round locks, and the score rises by one exactly when the trimmed, lowered input equals the lowered word |
| PictureTypingEn.SubmittedStore | src/lib/components/games/PictureTypingEnGame.tsx:136-142 | the shared store records one correct answer for a right submission, one incorrect answer for a wrong one, and nothing for an ignored one |
| PictureTypingEn.TypedWordScores | src/lib/components/games/PictureTypingEnGame.tsx:133-137 | an unpadded word typed as stored, in capitals, or with white space around it scores a point |
| PictureTypingEn.Advanced | src/lib/components/games/PictureTypingEnGame.tsx:150-156 | moving on opens the next question with the score kept, empty input and no feedback |
| PictureTypingEn.NewGame | src/lib/components/games/PictureTypingEnGame.tsx:100-113 | a new game asks every item once in some order and resets the store with the item count as total |
| PictureTypingEn.PictureTypingGame.constructor | src/lib/components/games/PictureTypingEnGame.tsx:50-55 | mounting keeps the items, leaves the game unstarted, and sets the store total to the item count before resetting it |
| PictureTypingEn.PictureTypingGame.Tick | src/lib/components/games/PictureTypingEnGame.tsx:63-68 | one timer tick adds a second and changes nothing else |
| PictureTypingEn.PictureTypingGame.StartGame | src/lib/components/games/PictureTypingEnGame.tsx:100-114 | every item once in a new order, the clock from 0 and running, the store reset with the item count as total |
| PictureTypingEn.PictureTypingGame.RestartGame | src/lib/components/games/PictureTypingEnGame.tsx:116-127 | restarting returns to the start screen with no questions, and the clock stops but keeps its reading |
| PictureTypingEn.PictureTypingGame.TypeAnswer | src/lib/components/games/PictureTypingEnGame.tsx:274-276 | typing changes the input as `Typed` says and nothing else |
| PictureTypingEn.PictureTypingGame.SubmitAnswer | src/lib/components/games/PictureTypingEnGame.tsx:129-148 | the game and the store change exactly as `Submitted` and `SubmittedStore` say |
| PictureTypingEn.PictureTypingGame.NextQuestion | src/lib/components/games/PictureTypingEnGame.tsx:150-161 | the next question opens, or after the last one the game is over and the clock stops |
| PictureTypingEn.PictureTypingGame.KeyDown | src/lib/components/games/PictureTypingEnGame.tsx:163-172 | Enter submits while the input is open and moves on after an answer; any other key changes nothing |
| PictureTypingEn.PictureTypingGame.CloseResults | src/lib/components/games/PictureTypingEnGame.tsx:326 | closing the results clears only the game-over flag |
| Unjumble.WordLen | src/lib/components/games/UnjumbleGame.tsx:92 | the first run of non-space characters ends at a space or at the end of the text |
| Unjumble.Tokenize | src/lib/components/games/UnjumbleGame.tsx:91-93 | splitting on white space and dropping empty pieces gives non-empty words free of white space |
| Unjumble.WordLenOf | src/lib/components/games/UnjumbleGame.tsx:92 | a word followed by a space or by nothing is exactly the first run |
| Unjumble.TokenizeCons | src/lib/components/games/UnjumbleGame.tsx:92 | a word followed by a space or by nothing is the first token, and the rest is cut the same way |
| Unjumble.TokenizeJoin | src/lib/components/games/UnjumbleGame.tsx:91-93 | cutting words joined by single spaces gives the words back |
| Unjumble.LowerAll | src/lib/components/games/UnjumbleGame.tsx:199 | each word lowered, position by position |
| Unjumble.LowerWords | src/lib/components/games/UnjumbleGame.tsx:199 | lowering keeps words non-empty and free of white space |
| Unjumble.LowerJoin | src/lib/components/games/UnjumbleGame.tsx:194-199 | lowering the joined words is joining the lowered words |
| Unjumble.RightIffSameWords | src/lib/components/games/UnjumbleGame.tsx:194-199 | for real words the verdict compares word by word: the answer is right exactly when it has the sentence's words, in order, up to letter case |
| Unjumble.WithSentence | src/lib/components/games/UnjumbleGame.tsx:97 | only items with an example sentence are kept |
| Unjumble.CreateQuestions | src/lib/components/games/UnjumbleGame.tsx:95-109 | one question per item with a sentence, each holding the item's prompt, the trimmed sentence's words, and a shuffle of them as bank |
| Unjumble.FilterAppend | src/lib/components/games/UnjumbleGame.tsx:97 | an item added at the end adds one kept item exactly when it has a sentence |
| Unjumble.DragData | src/lib/components/games/UnjumbleGame.tsx:147-155 | nothing is recorded while answering; otherwise the word and the side it came from |
| Unjumble.Dropped | src/lib/components/games/UnjumbleGame.tsx:162-180 | a drop while answering, of no word, or onto its own side changes nothing; otherwise every copy of the word leaves its side and one copy joins the end of the other side |
| Unjumble.DropKeepsMovedOnce | src/lib/components/games/UnjumbleGame.tsx:171-179 | drops of shown words keep every answer word single over the bank and the answer together |
| Unjumble.TwiceCounted | src/lib/components/games/UnjumbleGame.tsx:173 | a word at two positions counts twice |
| Unjumble.RepeatedWordNeverBuilt | src/lib/components/games/UnjumbleGame.tsx:171-179 | a sentence that repeats a word can never be built on the answer line |
| Unjumble.DropLosesRepeatedWord | src/lib/components/games/UnjumbleGame.tsx:171-174 | dragging w from a bank w x w takes both copies of w out of the bank and puts one on the answer line |
| Unjumble.RepeatedWordAnswerWrong | src/lib/components/games/UnjumbleGame.tsx:171-199 | the answer then reachable, w x, is judged wrong for w x w, and nothing is left to drag |
| Unjumble.RemoveFirst | src/lib/components/games/UnjumbleGame.tsx:173 | taking out the first copy of a word removes one occurrence from the multiset |
| Unjumble.DroppedOne | src/lib/components/games/UnjumbleGame.tsx:162-180 | the drop as evidently intended moves one copy only, so the words over bank and answer are preserved as a multiset |
| Unjumble.DragInOrder | src/lib/components/games/UnjumbleGame.tsx:162-180 | with the intended drop, dragging the bank's words in sentence order empties the bank and puts the sentence on the answer line |
| Unjumble.Assoc | src/lib/components/games/UnjumbleGame.tsx:174 | appending one word then the rest is appending them all |
| Unjumble.DragNothing | src/lib/components/games/UnjumbleGame.tsx:162-180 | dragging nothing from an empty bank leaves the empty bank and the answer |
| Unjumble.DragFirst | src/lib/components/games/UnjumbleGame.tsx:171-174 | one intended drag moves the first word and leaves a bank holding exactly the remaining words |
| Unjumble.DragInOrderRight | src/lib/components/games/UnjumbleGame.tsx:162-199 | with the intended drop every question, repeated words or not, can be answered right |
| Unjumble.StartPlay | src/lib/components/games/UnjumbleGame.tsx:111-128 | a new game starts on the first question with score 0, the first question's bank and an empty answer line; with no question the old words stay |
| Unjumble.Cleared | src/lib/components/games/UnjumbleGame.tsx:182-188 | clearing while answering is ignored; otherwise the bank is the question's shuffle again, the answer line is empty and the feedback goes |
| Unjumble.Submitted | src/lib/components/games/UnjumbleGame.tsx:190-206 | a submission while answering is ignored; otherwise the round locks and the score rises by one exactly when the joined answer equals the joined sentence up to case |
| Unjumble.SubmittedStore | src/lib/components/games/UnjumbleGame.tsx:199-205 | the shared store records one correct answer for a right submission, one incorrect answer for a wrong one, and nothing for an ignored one |
| Unjumble.Advanced | src/lib/components/games/UnjumbleGame.tsx:209-216 | the next question opens with its own bank, an empty answer line and no feedback, the score kept |
| Unjumble.NewGame | src/lib/components/games/UnjumbleGame.tsx:111-128 | a new game holds one question per item with a sentence, and resets the store with the question count as total |
| Unjumble.UnjumbleGame.constructor | src/lib/components/games/UnjumbleGame.tsx:50-55 | mounting keeps the items, leaves the game unstarted, and sets the store total to the item count before resetting it |
| Unjumble.UnjumbleGame.Tick | src/lib/components/games/UnjumbleGame.tsx:63-68 | one timer tick adds a second and changes nothing else |
| Unjumble.UnjumbleGame.StartGame | src/lib/components/games/UnjumbleGame.tsx:111-131 | a new game with the clock at 0 and running |
| Unjumble.UnjumbleGame.RestartGame | src/lib/components/games/UnjumbleGame.tsx:133-145 | restarting returns to the start screen with no questions and no words, and the clock stops but keeps its reading |
| Unjumble.UnjumbleGame.HandleDrop | src/lib/components/games/UnjumbleGame.tsx:162-180 | the words move exactly as `Dropped` says and nothing else changes |
| Unjumble.UnjumbleGame.ClearAnswer | src/lib/components/games/UnjumbleGame.tsx:182-188 | the game changes exactly as `Cleared` says |
| Unjumble.UnjumbleGame.SubmitAnswer | src/lib/components/games/UnjumbleGame.tsx:190-206 | the game and the store change exactly as `Submitted` and `SubmittedStore` say |
| Unjumble.UnjumbleGame.AfterSubmit | src/lib/components/games/UnjumbleGame.tsx:208-221 | the next question's bank opens, or after the last one the game is over and the clock stops |
| Unjumble.UnjumbleGame.CloseResults | src/lib/components/games/UnjumbleGame.tsx:396 | closing the results clears only the game-over flag |
| ImageGeneration.LowerPng | generate_image.py:16-19 | a name that ends in ".png" passes the suffix test |
| ImageGeneration.EnsurePng | generate_image.py:16-19 | the result ends in ".png" (any case), extends the given name by at most ".png", and differs from it exactly when the name lacked the suffix |
| ImageGeneration.EnsurePngIdempotent | generate_image.js:15-20 | adding the suffix twice is adding it once |
| ImageGeneration.Accept | generate_image.py:79-95 | a 200 reply saves exactly when its first data item carries an image, under the name with the ".png" suffix; otherwise the run ends with a parse, empty-data or missing-image error |
| ImageGeneration.Generate | generate_image.py:52-95 | the run uses no more replies than the service gave |
| ImageGeneration.GenerateNode | generate_image.js:84-145 | the Node loop uses no more replies than it was given, at least one when there is one, and saves only under the name with the ".png" suffix; an error reply whose body is not JSON ends it as a failed request, since the second read of the consumed body throws a TypeError |
| ImageGeneration.NodeMatchesPython | generate_image.js:84-145 | on success replies and on error replies with a JSON body whose `retry_after`, on a rate limit, is a whole number, the Node loop makes the same requests and ends the same way as the Python loop |
| ImageGeneration.NodeRereadsConsumedBody | generate_image.js:100-127 | an error reply whose body is not JSON ends the Node run as a failed request after one request, and the Python run as the API error (or the unreadable rate limit) |
| ImageGeneration.NotANumberRetryAfter | generate_image.js:100-109 | a rate limit whose `retry_after` is not a whole number ends the Python run after one request, while the Node run retries and so makes at least two when more replies come |
| ImageGeneration.AtMostOneRetry | generate_image.py:58-69 | at most one wait: two requests at most, one when retrying is off |
| ImageGeneration.SecondRateLimitFatal | generate_image.py:58-78 | a second rate-limit reply is not waited for and ends the run as API error 429 after two requests |
| ImageGeneration.SavedOnlyFromImage | generate_image.py:72-95 | an image is saved only from a last reply with status 200 that carries one, under the ".png" name |
| ImageGeneration.GenerateImage | generate_image.py:52-95 | the loop ends with the outcome and the request count of the recursive definition |
| ImageGeneration.ParseArgs | generate_image.js:168-194 | the loop reads the arguments exactly as the recursive reading from the first one, starting from the defaults |
| ImageGeneration.LaterPositionalsIgnored | generate_image.js:186-190 | once prompt and output are set, further plain arguments change nothing |
| ImageGeneration.PositionalsInOrder | generate_image.js:186-190 | the first plain argument becomes the prompt and the second the output; further ones are dropped |
| ImageGeneration.FlagTakesNextArgument | generate_image.js:180-185 | a flag takes the next argument even when it is another flag, and a flag at the end leaves its option undefined |
| ImageGeneration.ModeOf | generate_image.py:119-171 | a prompts file selects the batch run; otherwise the single run needs a non-empty prompt and output, and the usage error is shown when either is missing |
| ImageGeneration.ItemPath | generate_image.py:144 | a batch item's path already ends in ".png", so the suffix rule leaves it alone |
| ImageGeneration.RunBatch | generate_image.py:130-165 | the batch loop, calling `generate_image` for each entry, produces the events of its definition: it stops at a bad entry or at the first image request that does not save |
| ImageGeneration.HandleEntry | generate_image.py:137-161 | one turn checks the entry, then generates it; the turn stops the run exactly when the entry is bad or its request does not save |
| ImageGeneration.EntryStep | generate_image.py:137-161 | the events from an entry on are its own, then, only when it was saved, those of the later entries |
| ImageGeneration.SavedUnderItemPath | generate_image.py:144-154 | a saved entry's image is saved under `images/<name>.png` |
| ImageGeneration.ValidStep | generate_image.py:137-161 | an entry that is good and whose image request saved, when not the last, yields its image, the 25-second wait, then the rest |
| ImageGeneration.DonePrefix | generate_image.py:137-161 | a run of good, saved entries appears in order, each followed by the wait unless it is the last entry |
| ImageGeneration.AllValidEvents | generate_image.py:137-161 | when every entry is good and every image request saves, each entry is generated in order and followed by a wait, except the last |
| ImageGeneration.StopEvents | generate_image.py:137-161 | the events end with the exit at the first entry that is bad or not saved, two events per entry before it |
| ImageGeneration.StopsAtFirstFailure | generate_image.py:137-161 | the run stops at the first entry that is not an object, lacks a name or prompt, or whose image request does not save, after generating every entry before it |
| ImageGeneration.StopsAtFirstFailedGeneration | generate_image.py:145-152 | a good entry whose image request fails ends the run there with that outcome, after two events for each entry before it |
| R2Upload.StripQuotes | scripts/upload-to-r2.js:55 | at most one quote goes from each end; the result is the middle of the value, exactly the inside of a quoted value, and an unquoted value is kept whole |
| R2Upload.EnvLineFirstEquals | scripts/upload-to-r2.js:48-55 | a line gives a setting exactly when it is not blank, not a comment and has a non-empty key before its first "="; the value is everything after that "=", trimmed and unquoted |
| R2Upload.EnvEntries | scripts/upload-to-r2.js:47 | one parse result per line of the file |
| R2Upload.Load | scripts/upload-to-r2.js:47-62 | the environment only gains variables, and the count of loaded variables is at most the number of lines |
| R2Upload.NeverOverwrites | scripts/upload-to-r2.js:56-59 | a variable already set to something keeps its value whatever the file says |
| R2Upload.SetFromSomeLine | scripts/upload-to-r2.js:56-58 | every variable the file sets or changes comes from one of its lines, with that line's value |
| R2Upload.LoadStep | scripts/upload-to-r2.js:56-59 | one line sets its key and counts exactly when its key is still unset |
| R2Upload.LoadEnv | scripts/upload-to-r2.js:43-62 | the loop over the file's lines gives the environment and count of the definition |
| R2Upload.ReadConfig | scripts/upload-to-r2.js:70-74 | the script goes on exactly when the account id, both keys and the bucket are non-empty; the public address is optional |
| R2Upload.EnvironmentWins | scripts/upload-to-r2.js:56-74 | a complete configuration from the environment stays complete with the same four values whatever the file says |
| R2Upload.LogEntries | scripts/upload-to-r2.js:107 | one parse result per log line |
| R2Upload.LogEntriesAppend | scripts/upload-to-r2.js:107-116 | the log lines parse one by one, so parsing two parts is parsing each |
| R2Upload.LoggedAppend | scripts/upload-to-r2.js:104-116 | the paths of two parts of the log are the union of each part's paths |
| R2Upload.LoggedMembers | scripts/upload-to-r2.js:107-116 | a path is logged exactly when some line records it |
| R2Upload.UploadedFiles | scripts/upload-to-r2.js:97-123 | a missing log names nothing; otherwise the paths are exactly those its lines record |
| R2Upload.LoggedNext | scripts/upload-to-r2.js:106-114 | reading one more line of the log adds that line's path when it parses and nothing otherwise |
| R2Upload.LogLine | scripts/upload-to-r2.js:126-128 | a log entry is one line ending with a line break |
| R2Upload.LogLineRoundTrip | scripts/upload-to-r2.js:107-128 | a log line gives back the path it records, for a path free of the field separator and of line breaks that is not a comment |
| R2Upload.SplitAppendLine | scripts/upload-to-r2.js:107-132 | appending a line to log text adds one piece before the empty last one |
| R2Upload.LineSplit | scripts/upload-to-r2.js:107-128 | a line with its break splits into the line and an empty piece |
| R2Upload.AfterBreak | scripts/upload-to-r2.js:107-132 | splitting after a line break continues with the next line's pieces |
| R2Upload.LastPieceEmpty | scripts/upload-to-r2.js:107-132 | the last piece of log text ending in a break is empty |
| R2Upload.AppendEntry | scripts/upload-to-r2.js:126-132 | logging an upload keeps the log well formed and adds exactly its path to what the next run reads |
| R2Upload.LineHasNoBreak | scripts/upload-to-r2.js:128 | the entry before its break holds no line break |
| R2Upload.LoggedPieces | scripts/upload-to-r2.js:107-116 | the pieces before a new line, then that line and the empty piece after it, record its path besides the earlier ones |
| R2Upload.LoggedTail | scripts/upload-to-r2.js:107-116 | a recorded path followed by an empty piece adds only that path |
| R2Upload.Basename | scripts/upload-to-r2.js:262 | the base name holds no "/" and ends the path |
| R2Upload.Normalise | scripts/upload-to-r2.js:268-270 | every backslash becomes "/" and every other character is kept |
| R2Upload.FilesToUpload | scripts/upload-to-r2.js:261-272 | the files to upload are, in folder order, exactly the folder's files that are not skipped and whose path is not in the log |
| R2Upload.LogFileNeverUploaded | scripts/upload-to-r2.js:191-200 | the log file itself is never uploaded |
| R2Upload.Successes | scripts/upload-to-r2.js:288-315 | no more successes than attempts |
| R2Upload.UploadAll | scripts/upload-to-r2.js:288-318 | the log gains the lines of the successes in order; the success count is the successes and the two counts add up to the attempts |
| R2Upload.SucceededPathsMembers | scripts/upload-to-r2.js:303-311 | a path succeeded exactly when some successful attempt has it |
| R2Upload.LoggedAfter | scripts/upload-to-r2.js:291-318 | the next run reads the old log's paths plus those of this run's successes |
| R2Upload.AppendAssoc | scripts/upload-to-r2.js:132 | appending to the log is associative |
| R2Upload.RerunSkipsSuccesses | scripts/upload-to-r2.js:254-272 | a rerun skips every file that succeeded and tries again a failed file, unless another file with the same path succeeded |
| R2Upload.Extname | scripts/upload-to-r2.js:167 | the extension is empty or starts with "." and ends the path |
| R2Upload.ContentType | scripts/upload-to-r2.js:166-188 | a known extension, in any case, gets its listed type; any other gets "application/octet-stream" |
| R2Upload.UpperCasePng | scripts/upload-to-r2.js:167-171 | "photo.PNG" is sent as image/png: the extension's case does not matter |
| R2Upload.PngLookup | scripts/upload-to-r2.js:171 | ".PNG" lowers to ".png", which the table maps to image/png |
| R2Upload.ExtnameOfStem | scripts/upload-to-r2.js:167 | a plain name with one extension has that extension |
| R2Upload.NoExtensionDefault | scripts/upload-to-r2.js:167-187 | a name without an extension, or a dot file, gets the default type |
| R2Upload.CollapseSlashes | scripts/upload-to-r2.js:155 | every run of slashes becomes one: the result is no longer, keeps the first character and has no two slashes in a row |
| R2Upload.CollapsePrefix | scripts/upload-to-r2.js:155 | text without slashes passes the collapse unchanged |
| R2Upload.SchemeSlashLost | scripts/upload-to-r2.js:154-156 | as written, a public address "https://host" prints as "https:/host/...": the collapse eats the scheme's double slash |
| R2Upload.TrimTrailingSlashes | scripts/upload-to-r2.js:155 | only slashes are removed, from the end, until none is left there |
| R2Upload.TrimLeadingSlashes | scripts/upload-to-r2.js:155 | only slashes are removed, from the start, until none is left there |
| R2Upload.PublicUrl | scripts/upload-to-r2.js:154-156 | the intended address: the public address and the key joined by exactly one slash |
| R2Upload.PublicUrlKeepsBase | scripts/upload-to-r2.js:154-156 | the intended address starts with the public address, and exactly one slash joins it to the key |
| R2Upload.SchemeSlashKept | scripts/upload-to-r2.js:154-156 | the intended address keeps "https://host" intact |
| CollectTranslations.RunEnd | collect-translations.js:11 | the run of non-quote characters from a position ends at a quote or at the end of the text, and holds no quote |
| CollectTranslations.MatchEnd | collect-translations.js:11 | a match at the start of the text has a key of at least one character and room for the closing "')" |
| CollectTranslations.Keys | collect-translations.js:11-26 | every key found is non-empty and holds no quote |
| CollectTranslations.KeyCall | collect-translations.js:11-26 | a call t('key') is found with its key, and the search goes on right after it |
| CollectTranslations.RunEndAt | collect-translations.js:11 | the run ends at the first quote |
| CollectTranslations.NoCallNoKeys | collect-translations.js:11-26 | text without "t('" holds no key |
| CollectTranslations.Add | collect-translations.js:25 | the key is in the set afterwards and the keys already there keep their places |
| CollectTranslations.AddAllMembers | collect-translations.js:8-26 | the collected keys are exactly the old ones and the new ones |
| CollectTranslations.AddAllNoDuplicates | collect-translations.js:8-26 | the set lists every key once |
| CollectTranslations.AddAllKeepsOrder | collect-translations.js:8-34 | keys already collected keep their place, so the output lists keys in the order first seen |
| CollectTranslations.AddAllAppend | collect-translations.js:14-29 | adding the keys of two parts is adding the first part's then the second's |
| CollectTranslations.ScanContent | collect-translations.js:22-26 | the match loop over one file adds exactly the file's keys, in order |
| CollectTranslations.ScanDir | collect-translations.js:14-29 | the folder walk adds the keys of every source file of the tree, in walk order |
| CollectTranslations.CollectTranslations | collect-translations.js:4-35 | the output is the keys joined by line breaks; each key appears once, and a key appears exactly when some source file holds it |
| CollectTranslations.OutputLines | collect-translations.js:34 | keys without line breaks can be read back from the output line by line |
| CollectTranslations.OtherFilesIgnored | collect-translations.js:21 | a file that is not a .js, .jsx, .ts or .tsx file contributes nothing, whatever it holds |
| CandyCrush.CandyCrushGame.constructor | src/lib/components/games/CandyCrushEnglishGame.tsx:70-88 | the game opens unstarted with score 0, the initial moves, no grid, nothing selected, no quiz, and the store as given |
| Lesson3Exercises.ReadingExercises.constructor | src/routes/lessons/everybody-up-0/unit-1/lesson-3/exercises.tsx:205-222 | the exercises open on the lesson's tasks with every selection, answer and feedback blank and no score |
| ListeningEu.ListeningBoard.constructor | public/embed/everybody-up-0/listening/script.js:7-11 | the board keeps its exercise data and starts with every tab's count at 0 |
| MiLesson4.ReadingAssessment.constructor | src/routes/lessons/advanced-topics/multiple-intelligence-theory/lesson-4/exercises.tsx:280-301 | every question id maps to an empty answer, every feedback entry to none, and there is no score |
| ReadingComprehension.ReadingSlide.constructor | src/lib/components/activities/ReadingComprehensionSlide.tsx:157-197 | the slide keeps its questions and opens pristine: empty answers, no feedback, no score |
| Text.Split | scripts/upload-to-r2.js:47 | splitting on one character always gives at least one piece |
| YouTube.MarkerAt | src/lib/components/activities/YoutubeSlide.tsx:14 | a marker alternative found at a position lies wholly inside the address |

## Left out

- Rendering: JSX, CSS classes, animations, particles, confetti and combo banners. The static content slides are left out too.
- React semantics: batching, effect ordering and asynchronous `setState`. The handlers are modelled as sequential calls. The memory and matching games' effects run as explicit steps.
- DOM access in the embed scripts, `prompt` and `alert`. Only their grading logic is modelled.
- Audio, music, sound effects and speech synthesis. These are browser APIs outside the code.
- `localStorage`, cookies, window size, font scaling and history `pushState`. The stores model their record updates only.
- Network and file-system I/O. This covers `fetch`, the S3/R2 client, server calls, dynamic imports, directory walks and file writes. Their results are parameters.
- Base64 decoding (section 4 of RFC 4648), image writing and image conversion.
- ImageGeneration reply bodies are a JSON object or text that is not JSON. A top-level JSON value that is not an object (`null`, a number, a list) and a data item that is not an object are not modelled; on them the two scripts fail in different ways.
- ImageGeneration waits: only whether a wait happens is modelled, not its length (`retry_after`, the 60-second default, the 25-second pause).
- ImageGeneration file writes always succeed in the model. A failed write ends both scripts, with different messages.
- Timers and the countdown clock. Their continuations and each clock tick are methods the caller invokes.
- The distribution of `Math.random`. A shuffle is any permutation, and a pick is any allowed element. The `sort(() => Math.random() - 0.5)` in `MultipleChoiceGame.tsx` is treated the same way.
- Floating point. Scores use exact integer rounding (`Math.round` of the quotient, ties upwards). The listening similarity is a real number.
- Text.ToLower and Text.ToUpper map ASCII letters only. Unicode case mapping and normalisation are not modelled.
- JSON parsing in the lesson editor. The parse result is a parameter (`None` when parsing fails).
- Random ids (`Math.random().toString(36)`) on candies and bubbles. They only serve as React keys.
- Route definitions, type-only modules and the ESLint configuration.
- PictureChoiceEn.Clicked: requires a current question while the question is unanswered. The options are only shown for one, and without one the source would read an undefined question.
- Unjumble.UnjumbleGame.ClearAnswer: requires a current question. The source reads `currentQuestion.scrambledTokens` and would throw without one.
- Unjumble.UnjumbleGame.SubmitAnswer: requires a current question, for the same reason.
- Unjumble.UnjumbleGame.HandleDrop: follows the drop as written, which removes every copy of the dragged word. The corrected drop is `Unjumble.DroppedOne` (see Findings).
- AnagramGame.AnagramBoard.HandleSlotClick: follows the slot click as written. The corrected click is `AnagramActivity.SlotClicked` (see Findings).
- UnitOnePresentation.Presentation.KeyDownAsWritten: models the handler registered once at mount. `KeyDown` models the handler that reads the current state.
- CandyCrush.CandyCrushGame.OpenQuestionModal: requires a non-empty question list. With none, `questionsData[Math.floor(Math.random() * 0)]` is `undefined` and the source throws a `TypeError` reading `.type` of it; that throw is not modelled.
- CandyCrush.CandyCrushGame.RandomQuestion: requires a non-empty question list, for the same reason.
- BubbleShooter.BubbleShooterGame.OpenQuestionModal: requires a non-empty question list. With none, the drawn question is `undefined` and the source throws a `TypeError` reading `.type` of it; that throw is not modelled.
- BubbleShooter.BubbleShooterGame.RandomQuestion: requires a non-empty question list, for the same reason.
- ClassicQuiz.ClassicQuizGameCore.RandomQuestion: requires a non-empty question list. With none, `getRandomQuestion` reads `.type` of `undefined` and throws a `TypeError`; that throw is not modelled.
- ClassicQuiz.ClassicQuizGameCore.StartGame: requires a non-empty question list, because it draws a question and the draw throws on an empty list.
- ClassicQuiz.ClassicQuizGameCore.NextQuestion: requires a non-empty question list, for the same reason.

## Findings

| source | as written | input that shows it | evidently intended | confidence | as-written member | corrected member |
|---|---|---|---|---|---|---|
| src/lib/components/games/UnjumbleGame.tsx:171-179 | a drop filters the dragged word out of its side, removing every copy of it | sentence "you and you", bank [you, and, you]: dragging "you" empties both copies from the bank and adds one to the answer | move one copy of the word | not executed | Unjumble.DropLosesRepeatedWord | Unjumble.DragInOrderRight |
| scripts/upload-to-r2.js:154-156 | the public URL collapses every run of slashes, including the one after the scheme | public address "https://host" gives "https:/host/key" | join the address and the key with one slash and keep "https://" | not executed | R2Upload.SchemeSlashLost | R2Upload.SchemeSlashKept |
| src/lib/components/games/ListeningSentenceTypingGame.tsx:170-176 | only the typed text is trimmed before the comparison | a sentence stored as "I like cats " typed verbatim is judged wrong | trim both sides | not executed | ListeningSentenceTyping.PaddedSentenceWrong | ListeningSentenceTyping.CorrectedVerbatimRight |
| src/lib/components/games/AnagramGame.tsx:151-166 | a slot click frees the first index of the slot's letter in the scrambled word, not the index it was picked from | scrambled "AB": pick "B" into slot 0, then click slot 0; every slot is empty but "B" stays used | free the index the letter came from | not executed | AnagramGame.SlotClickLeavesLetterUsed | AnagramActivity.SlotClickConsistent |
| src/routes/lessons/everybody-up-0/unit-1/presentation.tsx:222-246 | the keyboard handler is registered once with empty dependencies, so it sees the slide and outline state from mount | on slide 5 ArrowRight goes to slide 1, and Escape never closes an open outline | read the current slide and outline state | not executed | UnitOnePresentation.StaleKeyboardCounterexample | UnitOnePresentation.Presentation.KeyDown |
