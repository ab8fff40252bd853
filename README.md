# Verified model of eight small browser applications

This project models the logic of eight small JavaScript web pages:

- a Tamagotchi-style pet called "Taco";
- a text-statistics tool;
- a palindrome checker;
- a book search over the Open Library API;
- a Rick and Morty character browser;
- a Pokédex;
- an interactive alarm clock;
- a random colour generator.

Each page is one Dafny module. Two shared modules hold what the pages take from JavaScript itself:

- `JsText` (js_text.dfy) models white space as `\s` and `String.prototype.trim` see it, `toLowerCase` and `toUpperCase`, `padStart`, and string length counted in UTF-16 code units.
- `JsNumber` (js_number.dfy) models `Number.prototype.toString(radix)` for natural numbers, a digit reader to read it back, and ceiling division.

The pages' state-changing code is modelled as classes that the methods update:

- `Tamagotchi.Creature`
- `Alarm.AlarmApp`
- `BookSearch.Search`
- `CharacterBrowser.Browser`
- `Pokedex.Browser`

The methods of `Tamagotchi.Creature` are proved against the pure reference step `Tamagotchi.Step`, whose properties are proved as lemmas. So are the two click and load methods of `Pokedex.Browser`, against `Pokedex.PageStep`. The methods of `BookSearch.Search`, `CharacterBrowser.Browser` and `Alarm.AlarmApp`, and `Pokedex.Browser.ChangePage`, state their new fields directly; those contracts are linked to the pure functions the pages share (`RemoveById`, `TimeString`, `PreviousRequest`, `ErrorMessage` and so on), which carry the lemmas. Pure helpers (trim, counting, formatting, colour lookup) are functions with lemmas about them.

Modules and files:

| module | file | models |
|---|---|---|
| `Tamagotchi` | tamagotchi.dfy | tamagotchi/app.js |
| `TextStats` | text_stats.dfy | text-analysis-app/src/utils/textAnalyzer.js and text-analysis-app/script.js |
| `Palindrome` | palindrome.dfy | Palindromo/palindromo.js |
| `BookSearch` | book_search.dfy | miniproyecto/app.js |
| `CharacterBrowser` | character_browser.dfy | rickandmortyapi/Api.js |
| `Pokedex` | pokedex.dfy | Pokedex/api.js |
| `Alarm` | alarm.dfy | alarma-interactiva/script.js |
| `ColorGenerator` | color.dfy | generador-colores/script.js |

## Model

| member | source | states |
|---|---|---|
| JsText.TrimSpec | text-analysis-app/src/utils/textAnalyzer.js:37-38 | `trim()` yields "" exactly when the text is blank; a blank text has no non-white-space character; a non-empty trim starts and ends with a character that is not white space |
| JsText.TrimParts | text-analysis-app/src/utils/textAnalyzer.js:37 | trim removes only white space: the text is a blank prefix, then the trimmed text, then a blank suffix |
| JsText.TrimStart | text-analysis-app/src/utils/textAnalyzer.js:37 | the result is a suffix of the input, everything removed is white space, and the result does not start with white space |
| JsText.TrimEnd | text-analysis-app/src/utils/textAnalyzer.js:37 | the result is a prefix of the input, everything removed is white space, and the result does not end with white space |
| JsText.ToLowerCaseAppend | Palindromo/palindromo.js:8 | lower-casing maps each character on its own: lower-casing a concatenation concatenates the lower-cased parts |
| JsText.LowerCaseIgnoresAsciiCase | Palindromo/palindromo.js:8 | two strings that differ only in ASCII letter case have the same `toLowerCase` |
| JsText.ToLowerCaseKeepsLower | rickandmortyapi/Api.js:145 | a string of lower-case ASCII letters is its own lower-case form |
| JsText.ToUpperCaseKeepsUpper | generador-colores/script.js:9 | a string of digits and upper-case ASCII letters is its own upper-case form |
| JsText.PadStart | Pokedex/api.js:121 | `padStart(width, fill)` has length max(len, width), ends with the original string, and has only the fill character in front of it |
| JsText.Utf16Length | text-analysis-app/src/utils/textAnalyzer.js:10 | `.length` counts between one and two code units per character, and is 0 only for "" |
| JsText.Utf16LengthAppend | text-analysis-app/src/utils/textAnalyzer.js:10 | `.length` is additive over concatenation |
| JsNumber.ToRadixString | generador-colores/script.js:9 | `toString(radix)` gives at least one lower-case digit below the radix, with no leading zero |
| JsNumber.ToRadixStringRoundTrip | generador-colores/script.js:9 | reading the digits of `toString(radix)` back gives the number |
| JsNumber.ToRadixStringLength | Pokedex/api.js:121 | a number below radix^k has at most k digits |
| JsNumber.PaddedDigits | Pokedex/api.js:121 | padding digits with '0' keeps them digits and keeps their value |
| JsNumber.CeilDiv | miniproyecto/app.js:49 | `Math.ceil(a / b)` is the least r with b·r ≥ a |
| TextStats.Split | text-analysis-app/src/utils/textAnalyzer.js:43-66 | `split` on a separator class gives at least one piece, and no piece contains a separator |
| TextStats.RemoveWhitespace | text-analysis-app/src/utils/textAnalyzer.js:22 | `replace(/\s/g, '')` leaves no white space and never lengthens the text |
| TextStats.CountCharactersWithSpaces | text-analysis-app/src/utils/textAnalyzer.js:6-11 | a non-string input or "" counts 0 |
| TextStats.CountCharactersWithoutSpaces | text-analysis-app/src/utils/textAnalyzer.js:18-23 | a non-string input or "" counts 0 |
| TextStats.CountWords | text-analysis-app/src/utils/textAnalyzer.js:31-45 | a non-string input or "" counts 0 |
| TextStats.CountSentences | text-analysis-app/src/utils/textAnalyzer.js:52-70 | a non-string input or "" counts 0 |
| TextStats.EstimateReadingTime | text-analysis-app/src/utils/textAnalyzer.js:78-88 | a non-string input or "" gives 0 minutes |
| TextStats.SplitCount | text-analysis-app/src/utils/textAnalyzer.js:43 | the number of non-blank pieces of a split equals the number of places where a run of non-separator, non-space text begins, a definition independent of split |
| TextStats.TrimStarts | text-analysis-app/src/utils/textAnalyzer.js:37 | trimming first does not change that number of segment starts |
| TextStats.CountWordsIsWordRuns | text-analysis-app/src/utils/textAnalyzer.js:37-44 | the word count is the number of maximal runs of non-white-space characters |
| TextStats.CountSentencesIsSentenceRuns | text-analysis-app/src/utils/textAnalyzer.js:58-69 | the sentence count is the number of segments between runs of `.`, `!` or `?` that contain a non-white-space character |
| TextStats.BlankHasNoWords | text-analysis-app/src/utils/textAnalyzer.js:37-40 | a blank text has no words and no sentences |
| TextStats.WhitespaceRunsCollapse | text-analysis-app/script.js:45-47 | replacing one non-empty run of white space with another does not change the word count |
| TextStats.WithoutSpacesAtMostWithSpaces | text-analysis-app/src/utils/textAnalyzer.js:10-22 | removing white space never increases the UTF-16 length, and keeps it exactly when the text has no white space |
| TextStats.CharacterCounts | text-analysis-app/src/utils/textAnalyzer.js:6-23 | the count without spaces is at most the count with spaces, with equality exactly when there is no white space |
| TextStats.WordsAtMostCharacters | text-analysis-app/src/utils/textAnalyzer.js:18-70 | there are never more words, or more sentences, than non-white-space characters |
| TextStats.ReadingTimeSpec | text-analysis-app/src/utils/textAnalyzer.js:78-88 | the estimate is 0 exactly for a non-string input or ""; otherwise it is max(1, ⌈words / 200⌉), and 1 for a blank text |
| TextStats.ReadingMinutesMonotone | text-analysis-app/script.js:86-90 | more words never give a shorter reading time |
| TextStats.DisplayedStatisticsBlank | text-analysis-app/script.js:122-133 | for a blank text the page shows all zeros, although the estimator alone would say 1 minute |
| TextStats.DisplayedStatisticsNonBlank | text-analysis-app/script.js:135-150 | for a text that is not blank the page shows the counters' own values, at least one word, one character and one minute |
| TextStats.NonBlankCounters | text-analysis-app/script.js:135-150 | a text that is not blank has at least one word run and one non-white-space character, and the counters equal the run counts |
| TextStats.DisplayedCounters | text-analysis-app/script.js:139-143 | the page passes the text it was given to each counter |
| TextStats.SentenceExample | text-analysis-app/script.js:68-70 | "Hola!!!" is one sentence: a run of terminators counts once |
| TextStats.FirstNonWhitespace | text-analysis-app/src/utils/textAnalyzer.js:37 | the first non-white-space character lies at or before any given one, with only white space before it |
| TextStats.FirstWordCounted | text-analysis-app/src/utils/textAnalyzer.js:37-44 | a text with a non-white-space character has at least one word |
| Palindrome.KeepAlnum | Palindromo/palindromo.js:8 | `replace(/[^a-z0-9]/g, '')` keeps only lower-case letters and digits and never lengthens the text |
| Palindrome.Reverse | Palindromo/palindromo.js:13 | reversing keeps the length |
| Palindrome.ReverseReverse | Palindromo/palindromo.js:13 | reversing twice gives the original |
| Palindrome.ReverseFixedIffMirrored | Palindromo/palindromo.js:13-15 | a string equals its reverse exactly when character k equals character n-1-k for every k |
| Palindrome.EsPalindromoSpec | Palindromo/palindromo.js:6-16 | `esPalindromo` holds exactly when the cleaned text is non-empty and mirrored |
| Palindrome.CleanAppend | Palindromo/palindromo.js:8 | cleaning works piece by piece |
| Palindrome.IgnoredCharacter | Palindromo/palindromo.js:8 | inserting a character that is neither an ASCII letter nor a digit changes neither the cleaned text nor the verdict |
| Palindrome.CaseInsensitive | Palindromo/palindromo.js:8 | texts that differ only in ASCII letter case get the same verdict |
| Palindrome.CleanFixesAlnum | Palindromo/palindromo.js:8 | cleaning a text of lower-case letters and digits changes nothing |
| Palindrome.NothingLeft | Palindromo/palindromo.js:10 | a text with nothing left after cleaning is not a palindrome |
| Palindrome.BangsCleanToNothing | Palindromo/palindromo.js:10 | "!!!" cleans to "" and is not a palindrome |
| Palindrome.SingleCharacter | Palindromo/palindromo.js:13-15 | one letter or digit is a palindrome |
| Palindrome.MirroredWord | Palindromo/palindromo.js:13-15 | a non-empty mirrored word of lower-case letters and digits is a palindrome |
| Palindrome.AnaIsPalindrome | Palindromo/palindromo.js:6-16 | "ana" is a palindrome |
| Palindrome.RadarIsPalindrome | Palindromo/palindromo.js:6-16 | "radar" is a palindrome |
| Palindrome.ReconocerIsPalindrome | Palindromo/palindromo.js:6-16 | "reconocer" is a palindrome |
| Palindrome.Verificar | Palindromo/palindromo.js:23-41 | the page reports an empty input exactly for a blank text, and a palindrome exactly for a text that is not blank and passes `esPalindromo` |
| BookSearch.Offset | miniproyecto/app.js:87 | the offset of page p is a non-negative multiple of 20 and names page p |
| BookSearch.ButtonsMatchHandlers | miniproyecto/app.js:323-329 | previous is enabled exactly when the page is above 1, and next exactly when the page is below ⌈results / 20⌉ |
| BookSearch.PagesWithinResults | miniproyecto/app.js:48-54 | every page up to the page count starts at an offset inside the results |
| BookSearch.RecommendedTopic | miniproyecto/app.js:381 | the random pick is always one of the recommended topics |
| BookSearch.Search.constructor | miniproyecto/app.js:5-8 | page 1, no query, no results |
| BookSearch.Search.Prev | miniproyecto/app.js:41-46 | above page 1 it moves back one page and asks for the same query; otherwise nothing changes |
| BookSearch.Search.Next | miniproyecto/app.js:48-54 | below the page count it moves on one page and asks for it; otherwise nothing changes |
| BookSearch.Search.HandleSearch | miniproyecto/app.js:65-77 | a blank input does nothing; otherwise the trimmed query becomes current at page 1 and is requested |
| BookSearch.Search.Receive | miniproyecto/app.js:92-98 | a successful response records its result count, a failed one keeps the old count; the page and query are kept |
| BookSearch.Search.LoadRecommendations | miniproyecto/app.js:371-385 | the random topic becomes the query and its first page is requested |
| BookSearch.TruncateText | miniproyecto/app.js:315-320 | a text up to the limit is kept; a longer one is its first `maxLength` characters followed by "..." |
| BookSearch.TruncateTwice | miniproyecto/app.js:315-320 | truncating a truncated text again changes nothing |
| BookSearch.RemOne | miniproyecto/app.js:291 | JavaScript `rating % 1` is the fractional part for a non-negative rating and lies in (-1, 0] for a negative one |
| BookSearch.GenerateStars | miniproyecto/app.js:289-306 | the loop builds exactly the reference star string for any rating |
| BookSearch.StarsSpec | miniproyecto/app.js:289-306 | for a rating in 0..5 there are five stars: full below the floor, one half star when the fraction is at least 0.5, then empty stars |
| BookSearch.LanguageName | miniproyecto/app.js:251-261 | a known code gives its name; any other code gives the code upper-cased |
| BookSearch.UpperHasNoAsciiLower | miniproyecto/app.js:260 | an upper-cased code contains no lower-case ASCII letter |
| BookSearch.KnownNameIffLowerLetters | miniproyecto/app.js:251-261 | the shown name contains a lower-case ASCII letter exactly when the code was known |
| BookSearch.UnknownCodeUpperCased | miniproyecto/app.js:260 | "por" is shown as "POR" |
| CharacterBrowser.UrlHasNameIffQuery | rickandmortyapi/Api.js:33-37 | the request URL starts with the character endpoint and carries a name filter exactly when the query is not empty |
| CharacterBrowser.ErrorMessage | rickandmortyapi/Api.js:41-46 | status 404 gives the "no characters" message; any other status gives "Error HTTP! estado: " followed by digits that read back as the status |
| CharacterBrowser.ClassAndTextAgree | rickandmortyapi/Api.js:144-169 | the CSS class and the label agree: alive with "Vivo", dead with "Muerto", and equal classes exactly when the labels are equal |
| CharacterBrowser.StatusIgnoresCase | rickandmortyapi/Api.js:145 | statuses that differ only in ASCII case get the same class and label |
| CharacterBrowser.AliveStatus | rickandmortyapi/Api.js:144-169 | "Alive" maps to `status-alive` and "Vivo" |
| CharacterBrowser.DeadStatus | rickandmortyapi/Api.js:144-169 | "Dead" maps to `status-dead` and "Muerto" |
| CharacterBrowser.UnknownStatus | rickandmortyapi/Api.js:144-169 | "unknown" maps to `status-unknown` and "Desconocido" |
| CharacterBrowser.PreviousRequest | rickandmortyapi/Api.js:227-232 | a request is made exactly above page 1, for an earlier page with the same query |
| CharacterBrowser.NextRequest | rickandmortyapi/Api.js:237-242 | a request is made exactly below the page count, for a later page within it and the same query |
| CharacterBrowser.ButtonsMatchHandlers | rickandmortyapi/Api.js:174-180 | on a page within the page count, each button is enabled exactly when its handler makes a request |
| CharacterBrowser.Browser.constructor | rickandmortyapi/Api.js:6-9 | page 1 of 1, no query, not searching |
| CharacterBrowser.Browser.GoToPreviousPage | rickandmortyapi/Api.js:227-232 | returns the reference previous-page request |
| CharacterBrowser.Browser.GoToNextPage | rickandmortyapi/Api.js:237-242 | returns the reference next-page request |
| CharacterBrowser.Browser.PerformSearch | rickandmortyapi/Api.js:247-260 | the same trimmed query again changes nothing; a new one becomes current, sets the searching flag when it is not empty, and asks for page 1 |
| CharacterBrowser.Browser.ClearSearch | rickandmortyapi/Api.js:265-273 | back to no query, not searching, page 1, asking for the unfiltered first page |
| CharacterBrowser.Browser.Receive | rickandmortyapi/Api.js:41-63 | a success moves to the requested page and records the page count; a failure keeps both and gives the error text |
| Pokedex.ListOffset | Pokedex/api.js:69 | the offset of page p is a non-negative multiple of 20 that names page p |
| Pokedex.ListOffsetsTile | Pokedex/api.js:69 | page 1 starts at 0, and each page starts 20 after the previous one |
| Pokedex.Browser.constructor | Pokedex/api.js:5 | the page starts at 1 with neither button disabled, before the first load ends |
| Pokedex.Browser.ChangePage | Pokedex/api.js:184-189 | the page moves by the direction, with no bound check, and the button flags are kept |
| Pokedex.Browser.Offset | Pokedex/api.js:69 | the requested offset names the current page |
| Pokedex.PageStep | Pokedex/api.js:55-56 | no contract of its own: the reference step for a click (ignored on a disabled button, else `changePage`), a successful load (the flags set from the page of that moment) or a failed load (nothing changes); specified by Pokedex.LoadSettles, Pokedex.SettledClickInRange and Pokedex.StaleButtonsLeaveRange |
| Pokedex.PageRun | Pokedex/api.js:55-85 | no contract of its own: a sequence of steps; specified by Pokedex.PacedStaysInRange and Pokedex.StaleButtonsLeaveRange |
| Pokedex.Browser.Click | Pokedex/api.js:55-56 | the new page and flags are the reference step for that click |
| Pokedex.Browser.UpdatePaginationButtons | Pokedex/api.js:192-196 | the new page and flags are the reference step for a successful load |
| Pokedex.LoadSettles | Pokedex/api.js:78-80 | after a successful load the flags agree with the page, which is kept |
| Pokedex.SettledClickInRange | Pokedex/api.js:184-196 | with flags that agree with a page in 1..50, a click stays in 1..50; it does nothing exactly on prev at page 1 or next at page 50, and otherwise moves by one |
| Pokedex.PacedStaysInRange | Pokedex/api.js:66-85 | if no click comes while a load is pending, the page never leaves 1..50 |
| Pokedex.StartPaced | Pokedex/api.js:42-45 | the start state, with its first load pending, meets that invariant, although its flags do not yet agree with page 1 |
| Pokedex.StaleButtonsLeaveRange | Pokedex/api.js:80-85 | the flags are stale while a load is pending or after one failed: two prev clicks from page 2 reach page 0, which requests offset -20, and two next clicks from page 49 reach page 51 |
| Pokedex.FormatIdSpec | Pokedex/api.js:121 | the shown id has at least three decimal digits and exactly as many as the id when that is more, and reads back as the id |
| Pokedex.SmallIdThreeDigits | Pokedex/api.js:247 | ids below 1000 are shown with exactly three digits |
| Pokedex.TypeColor | Pokedex/api.js:115 | a known type gets its table colour; the grey fallback is returned exactly for unknown types |
| Pokedex.TableColorsLong | Pokedex/api.js:20-39 | every table colour is a seven-character `#RRGGBB` |
| Pokedex.SearchPokemon | Pokedex/api.js:135-141 | a blank input reloads the list; any other input looks up its non-empty normalised term |
| Pokedex.ToLowerCaseIdempotent | Pokedex/api.js:136 | lower-casing twice equals lower-casing once |
| Pokedex.LowerEnds | Pokedex/api.js:136 | lower-casing a trimmed term keeps non-white-space characters at both ends |
| Pokedex.SearchTermIdempotent | Pokedex/api.js:136 | normalising a normalised term changes nothing |
| Alarm.Pad2 | alarma-interactiva/script.js:56-58 | `padStart(2, '0')` gives at least two characters and ends with the field |
| Alarm.TimeString | alarma-interactiva/script.js:56-60 | the alarm time is the three padded fields separated by ':' |
| Alarm.FieldSpec | alarma-interactiva/script.js:41-43 | a clock field below 100 is two digits that read back as the number |
| Alarm.ClockStringSpec | alarma-interactiva/script.js:41-45 | the displayed clock is eight characters `HH:MM:SS` whose fields read back as the hour, minute and second |
| Alarm.ClockStringInjective | alarma-interactiva/script.js:47-51 | different clock times give different strings |
| Alarm.LongFieldNeverMatches | alarma-interactiva/script.js:56-60 | an alarm typed with a field longer than two characters can never equal the clock, so it never fires |
| Alarm.FiresExactlyAt | alarma-interactiva/script.js:47-51 | an active alarm set to a clock time fires exactly at that time |
| Alarm.RemoveById | alarma-interactiva/script.js:168 | the filter never lengthens the list and keeps no alarm with the deleted id |
| Alarm.RemoveByIdMembers | alarma-interactiva/script.js:168 | an alarm survives the filter exactly when it was present and has another id |
| Alarm.RemoveByIdAppend | alarma-interactiva/script.js:168 | filtering works piece by piece, so order is kept |
| Alarm.RemoveAbsent | alarma-interactiva/script.js:168 | deleting an id that is not present changes nothing |
| Alarm.RemoveByIdCount | alarma-interactiva/script.js:168 | exactly the alarms with that id are removed |
| Alarm.DeleteUndoesStart | alarma-interactiva/script.js:69-75 | deleting a freshly added alarm with a new id restores the list |
| Alarm.AlarmApp.constructor | alarma-interactiva/script.js:2-12 | inactive, no alarm time, the stored alarms loaded |
| Alarm.AlarmApp.StartAlarm | alarma-interactiva/script.js:55-78 | active, the padded alarm time set, and one alarm appended with that time, sound and volume |
| Alarm.AlarmApp.StopAlarm | alarma-interactiva/script.js:80-88 | inactive with no alarm time; the list and inputs are kept |
| Alarm.AlarmApp.ResetInputs | alarma-interactiva/script.js:90-95 | inputs back to 07:00:00 and the alarm stopped |
| Alarm.AlarmApp.TriggerAlarm | alarma-interactiva/script.js:97-102 | the alarm is stopped |
| Alarm.AlarmApp.UpdateTime | alarma-interactiva/script.js:39-53 | shows the clock string and fires exactly when the reference rule says so, stopping the alarm then |
| Alarm.AlarmApp.DeleteAlarm | alarma-interactiva/script.js:167-171 | the list becomes the reference filter of the old list |
| ColorGenerator.ColorIndex | generador-colores/script.js:9 | `Math.floor(Math.random() * 16777215)` is at most 16777214 |
| ColorGenerator.LowerHexSpec | generador-colores/script.js:9 | the padded hex form of a 24-bit number is six lower-case hex digits that read back as the number |
| ColorGenerator.UpperHexDigits | generador-colores/script.js:9 | upper-casing hex digits keeps the length and the digit values, giving upper-case hex digits |
| ColorGenerator.SameDigitValues | generador-colores/script.js:9 | digit strings with the same digit values have the same value |
| ColorGenerator.SixHexDigits | generador-colores/script.js:9 | six hex digits hold exactly 0..16777215 |
| ColorGenerator.HexColorShape | generador-colores/script.js:9 | the colour is '#' followed by six upper-case hex digits |
| ColorGenerator.HexColorRoundTrip | generador-colores/script.js:9 | the six digits read back as the index |
| ColorGenerator.NeverWhite | generador-colores/script.js:9 | the colour is seven characters and never `#FFFFFF` |
| Tamagotchi.DeathCause | tamagotchi/app.js:458-464 | hunger at 100 is starvation; otherwise energy at 0 is exhaustion; otherwise sadness |
| Tamagotchi.InitialInRange | tamagotchi/app.js:78-91 | the start state has all stats in range, is running and is not lethal |
| Tamagotchi.StepInRange | tamagotchi/app.js:109-231 | every timer tick and action keeps hunger, energy and happiness within 0..100 |
| Tamagotchi.RunInRange | tamagotchi/app.js:109-231 | any sequence of events keeps the stats within 0..100 |
| Tamagotchi.InactiveIgnoresEvents | tamagotchi/app.js:109-231 | after game over only a restart changes anything |
| Tamagotchi.InactiveIgnoresRun | tamagotchi/app.js:109-231 | after game over, any sequence without a restart changes nothing |
| Tamagotchi.OnlyDecayEndsGame | tamagotchi/app.js:141-231 | neither the clock, the day/night tick nor any button ends the game |
| Tamagotchi.DecayEndsGameIffLethal | tamagotchi/app.js:109-138 | a decay tick ends the game exactly when it leaves a lethal state |
| Tamagotchi.PlayThenHungerTick | tamagotchi/app.js:192-208 | playing can drain energy to 0 without ending the game; the next hunger tick ends it by exhaustion and records the time alive |
| Tamagotchi.NightDrainsMore | tamagotchi/app.js:119-128 | the energy tick takes 3 by day and 5 by night |
| Tamagotchi.DayNightOnlyFlips | tamagotchi/app.js:150-155 | the day/night tick flips only `isDaytime`, and two of them change nothing |
| Tamagotchi.MedicineSpec | tamagotchi/app.js:210-231 | medicine acts only when a stat is below 40; it then sets all three stats to 50 and changes nothing else, leaving a state that needs no medicine and is not lethal |
| Tamagotchi.MedicineButtonDisabled | tamagotchi/app.js:309-316 | the button is enabled exactly when some stat is below 40 |
| Tamagotchi.EnabledMedicineActs | tamagotchi/app.js:210-231 | pressing an enabled medicine button always changes the state |
| Tamagotchi.StepKeepsRecord | tamagotchi/app.js:508-514 | the record never decreases, and at game over it is at least the time alive |
| Tamagotchi.RunKeepsRecord | tamagotchi/app.js:479-514 | the record never decreases over any sequence of events |
| Tamagotchi.RecordExamples | tamagotchi/app.js:508-514 | a longer life replaces the record and a shorter one does not |
| Tamagotchi.RestartResets | tamagotchi/app.js:479-502 | restart gives the start state, keeping the record and the badges |
| Tamagotchi.AchievementsGrow | tamagotchi/app.js:405-421 | badges are never lost, and every threshold reached by the clock tick is unlocked |
| Tamagotchi.RunKeepsAchievements | tamagotchi/app.js:405-421 | badges are never lost over any sequence |
| Tamagotchi.NewlyUnlocked | tamagotchi/app.js:405-421 | the badges a clock tick unlocks are thresholds that were not unlocked before |
| Tamagotchi.UnlockedOnce | tamagotchi/app.js:405-421 | no badge is announced by two consecutive ticks |
| Tamagotchi.ThoughtRegions | tamagotchi/app.js:242-268 | each thought is chosen exactly in its region of stats, checked in the source's order |
| Tamagotchi.HungerFirst | tamagotchi/app.js:242-244 | hunger outranks every other thought |
| Tamagotchi.MinutesSeconds | tamagotchi/app.js:521-525 | seconds split into minutes and seconds below 60 |
| Tamagotchi.MinutesSecondsUnique | tamagotchi/app.js:521-525 | that split is the only one |
| Tamagotchi.FormatTimeSpec | tamagotchi/app.js:521-525 | the text is "Xm Ys" whose numbers read back as the minutes and seconds |
| Tamagotchi.Creature.constructor | tamagotchi/app.js:78-91 | the start state with the stored record |
| Tamagotchi.Creature.EndGame | tamagotchi/app.js:446-473 | the game-over state, with its cause |
| Tamagotchi.Creature.CheckGameOver | tamagotchi/app.js:439-444 | ends the game exactly in a lethal state and reports the cause |
| Tamagotchi.Creature.HungerTimer | tamagotchi/app.js:109-116 | follows the reference hunger tick and reports a cause exactly when the game ends |
| Tamagotchi.Creature.EnergyTimer | tamagotchi/app.js:119-128 | follows the reference energy tick and reports a cause exactly when the game ends |
| Tamagotchi.Creature.HappinessTimer | tamagotchi/app.js:131-138 | follows the reference happiness tick and reports a cause exactly when the game ends |
| Tamagotchi.Creature.ClockTimer | tamagotchi/app.js:141-147 | follows the reference clock tick and reports the badges it unlocked |
| Tamagotchi.Creature.DayNightTimer | tamagotchi/app.js:150-155 | follows the reference day/night tick |
| Tamagotchi.Creature.FeedTaco | tamagotchi/app.js:162-175 | follows the reference feed action |
| Tamagotchi.Creature.SleepTaco | tamagotchi/app.js:177-190 | follows the reference sleep action |
| Tamagotchi.Creature.PlayWithTaco | tamagotchi/app.js:192-208 | follows the reference play action |
| Tamagotchi.Creature.GiveMedicine | tamagotchi/app.js:210-231 | follows the reference medicine action and reports whether it acted |
| Tamagotchi.Creature.RestartGame | tamagotchi/app.js:479-502 | follows the reference restart |
| Tamagotchi.Creature.CurrentThought | tamagotchi/app.js:237-272 | the thought for the current stats |
| Tamagotchi.Initial | tamagotchi/app.js:78-91 | no contract of its own: the start state; specified by Tamagotchi.InitialInRange and Tamagotchi.RestartResets |
| Tamagotchi.Lethal | tamagotchi/app.js:441 | no contract of its own: `checkGameOver`'s condition; used by Tamagotchi.DecayEndsGameIffLethal and Tamagotchi.DeathCause |
| Tamagotchi.GameOver | tamagotchi/app.js:446-473 | no contract of its own: the game-over state; specified by Tamagotchi.StepKeepsRecord and Tamagotchi.RecordExamples |
| Tamagotchi.GameOverCheck | tamagotchi/app.js:439-444 | no contract of its own; specified by Tamagotchi.DecayEndsGameIffLethal |
| Tamagotchi.Step | tamagotchi/app.js:109-231 | no contract of its own: the reference step for each timer tick, button and restart; specified by Tamagotchi.StepInRange, Tamagotchi.DecayEndsGameIffLethal, Tamagotchi.OnlyDecayEndsGame, Tamagotchi.MedicineSpec, Tamagotchi.NightDrainsMore and Tamagotchi.RestartResets |
| Tamagotchi.Run | tamagotchi/app.js:109-231 | no contract of its own: a sequence of steps; specified by Tamagotchi.RunInRange, Tamagotchi.RunKeepsRecord and Tamagotchi.RunKeepsAchievements |
| Tamagotchi.Reached | tamagotchi/app.js:405-421 | no contract of its own: the thresholds reached; specified by Tamagotchi.AchievementsGrow |
| Tamagotchi.ThoughtOf | tamagotchi/app.js:242-268 | no contract of its own; specified by Tamagotchi.ThoughtRegions |
| Tamagotchi.ThoughtText | tamagotchi/app.js:242-268 | no contract of its own: the text of each thought, taken over as written |
| Tamagotchi.FormatTime | tamagotchi/app.js:521-525 | no contract of its own; specified by Tamagotchi.FormatTimeSpec |
| Tamagotchi.CauseText | tamagotchi/app.js:458-464 | no contract of its own: the text of each cause, taken over as written |
| Tamagotchi.GameOverMessage | tamagotchi/app.js:466 | no contract of its own: the cause text followed by the time survived in `formatTime` form |
| Palindrome.Clean | Palindromo/palindromo.js:8 | no contract of its own; specified by Palindrome.CleanAppend, Palindrome.IgnoredCharacter, Palindrome.CaseInsensitive and Palindrome.CleanFixesAlnum |
| Palindrome.EsPalindromo | Palindromo/palindromo.js:6-16 | no contract of its own; specified by Palindrome.EsPalindromoSpec |
| ColorGenerator.HexColor | generador-colores/script.js:9 | no contract of its own; specified by ColorGenerator.HexColorShape and ColorGenerator.HexColorRoundTrip |
| ColorGenerator.GenerateRandomColor | generador-colores/script.js:8-11 | no contract of its own; specified by ColorGenerator.NeverWhite |
| ColorGenerator.LowerHex | generador-colores/script.js:9 | no contract of its own; specified by ColorGenerator.LowerHexSpec |
| CharacterBrowser.Url | rickandmortyapi/Api.js:33-37 | no contract of its own; specified by CharacterBrowser.UrlHasNameIffQuery |
| CharacterBrowser.StatusOf | rickandmortyapi/Api.js:145-151 | no contract of its own; specified by CharacterBrowser.StatusIgnoresCase and CharacterBrowser.AliveStatus |
| CharacterBrowser.StatusClass | rickandmortyapi/Api.js:144-153 | no contract of its own; specified by CharacterBrowser.ClassAndTextAgree, CharacterBrowser.AliveStatus, CharacterBrowser.DeadStatus and CharacterBrowser.UnknownStatus |
| CharacterBrowser.StatusText | rickandmortyapi/Api.js:160-169 | no contract of its own; specified by the same lemmas |
| CharacterBrowser.PrevDisabled | rickandmortyapi/Api.js:178 | no contract of its own; specified by CharacterBrowser.ButtonsMatchHandlers |
| CharacterBrowser.NextDisabled | rickandmortyapi/Api.js:179 | no contract of its own; specified by CharacterBrowser.ButtonsMatchHandlers |
| Pokedex.FormatId | Pokedex/api.js:121 | no contract of its own; specified by Pokedex.FormatIdSpec and Pokedex.SmallIdThreeDigits |
| Pokedex.SearchTerm | Pokedex/api.js:136 | no contract of its own; specified by Pokedex.SearchPokemon and Pokedex.SearchTermIdempotent |
| Pokedex.PrevDisabled | Pokedex/api.js:193 | no contract of its own; specified by Pokedex.SettledClickInRange |
| Pokedex.NextDisabled | Pokedex/api.js:195 | no contract of its own; specified by Pokedex.SettledClickInRange |
| BookSearch.MaxPages | miniproyecto/app.js:49 | no contract of its own; specified by BookSearch.ButtonsMatchHandlers and BookSearch.PagesWithinResults |
| BookSearch.PrevDisabled | miniproyecto/app.js:328 | no contract of its own; specified by BookSearch.ButtonsMatchHandlers |
| BookSearch.NextDisabled | miniproyecto/app.js:329 | no contract of its own; specified by BookSearch.ButtonsMatchHandlers |
| BookSearch.Stars | miniproyecto/app.js:289-306 | no contract of its own; specified by BookSearch.StarsSpec and BookSearch.GenerateStars |
| Alarm.Field | alarma-interactiva/script.js:41-43 | no contract of its own; specified by Alarm.FieldSpec |
| Alarm.ClockString | alarma-interactiva/script.js:41-45 | no contract of its own; specified by Alarm.ClockStringSpec and Alarm.ClockStringInjective |
| Alarm.Fires | alarma-interactiva/script.js:47-51 | no contract of its own; specified by Alarm.FiresExactlyAt and Alarm.LongFieldNeverMatches |
| Alarm.AlarmApp.SetInputs | alarma-interactiva/script.js:56-58 | the user typing into the three inputs that these lines read: the inputs change and nothing else does |
| TextStats.ReadingMinutes | text-analysis-app/src/utils/textAnalyzer.js:84-87 | no contract of its own; specified by TextStats.ReadingTimeSpec and TextStats.ReadingMinutesMonotone |
| TextStats.DisplayedStatistics | text-analysis-app/script.js:118-151 | no contract of its own; specified by TextStats.DisplayedStatisticsBlank and TextStats.DisplayedStatisticsNonBlank |
| JsText.Trim | text-analysis-app/src/utils/textAnalyzer.js:37 | no contract of its own; specified by JsText.TrimSpec and JsText.TrimParts |
| JsText.ToLowerCase | Palindromo/palindromo.js:8 | never shortens the text; otherwise specified by JsText.ToLowerCaseAppend, JsText.LowerCaseIgnoresAsciiCase and JsText.ToLowerCaseKeepsLower |
| JsText.ToUpperCase | miniproyecto/app.js:260 | never shortens the text; otherwise specified by JsText.ToUpperCaseKeepsUpper and BookSearch.UpperHasNoAsciiLower |

## Differences between the description and the code

- Tamagotchi: the Feed, Sleep, Play and Medicine buttons do not call `checkGameOver`. Only the three decay timers do (tamagotchi/app.js:109-138 against 162-231). The model follows the code. `Tamagotchi.PlayThenHungerTick` shows the consequence: energy can reach 0 while the game keeps running until the next decay tick.
- Book search: `totalResults` is updated from `numFound` even when the result list is empty (miniproyecto/app.js:98-104). The model follows the code.
- Pokédex: `changePage` has no bound check of its own (Pokedex/api.js:184-189). Only the disabled buttons keep the page in range, and the buttons are updated only when a load succeeds (Pokedex/api.js:80; the `catch` at 81-84 leaves them). The page stays in 1..50 only while every click waits for its load to succeed (`Pokedex.PacedStaysInRange`). Two quick clicks, or a click after a failed load, reach page 0 or page 51 (`Pokedex.StaleButtonsLeaveRange`).

## Left out

- Network requests (`fetch`), the DOM, CSS classes on elements, timers (`setInterval`/`setTimeout`), `localStorage`, audio, `alert` and animations. Responses, stored values and clock readings are parameters; intervals are the events of `Tamagotchi.Step` and the timer methods.
- `Math.random`, `Date.now` and `new Date()`: passed in as parameters (a real in [0, 1), an id, the hours, minutes and seconds).
- `encodeURIComponent`: the query in `CharacterBrowser.Url` and in the book-search query stands for its encoded form.
- Floating point: ratings and random numbers are exact reals; `Number` to string conversion covers natural numbers only, with no exponent form.
- Full Unicode case mapping: `JsText.ToLowerCase` and `JsText.ToUpperCase` map ASCII, Latin-1 and the two code points whose lower-case form contains an ASCII letter. Other scripts are left unchanged.
- Lookups in the object literals (`langMap`, `typeColors`) are maps, so inherited prototype keys such as "constructor" are not modelled.
- BookSearch.TruncateText: `substring` and `length` count UTF-16 code units; the model counts code points, so text with astral characters is cut at a different place.
- BookSearch.StarsSpec: states the five-star shape only for ratings in 0..5; `BookSearch.GenerateStars` itself is proved for every rating.
- Tamagotchi: `startIntervals` called again on restart without clearing duplicate intervals is not modelled. Each timer kind is one event. The timing of the achievement pop-up and the particle and sound effects are not modelled either.
- Tamagotchi: `createStars`, `updateUI`, `updateProgressBar`, `updateDayNight`, `shakeTaco`, `createParticles` and `playSound` only draw or play sound, and are left out.
- Character browser: network errors other than an HTTP status (the `catch` branch) only show a generic message, and `updateSearchInfo` only writes text; both are left out.
- Book search: rendering the cards and the modal is left out.
- Pokédex: the initial `disabled` state of the two buttons comes from the page's HTML, which is not part of this model; both start enabled. While a search result is shown the buttons are hidden (Pokedex/api.js:155-156); that is not modelled.
- Pokédex: the fetches in `searchPokemon` and in `loadPokemonList`, `displayPokemon`, `showPokemonDetails` and `resetSearch` are display or network code and are left out. The decision `searchPokemon` makes is modelled.
- Alarm: `loadAlarms`/`saveAlarms` (`localStorage`), `renderAlarms`, `playSound`/`stopSound` and the volume slider are left out. The stored list is a constructor parameter.
- Alarm: `AlarmApp.SetInputs` stands for the user typing into the three inputs.
