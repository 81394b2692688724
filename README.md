# StockBridge scraper core, in Dafny

StockBridge drives an embedded Chromium browser over a car-sales site. It sets the
search filters, reads the cards of the first two result pages, and opens a car picked
at random to read its detail page: the simple fields and the basics, features and
history sections of that page. Finally it opens the home-delivery modal, falling back
to other random cars, to read three "notable highlights". This project models that
core and proves what each step promises.

The model is organised as follows:

- **The browser** (`browser.dfy`) is the class `Browser.Browser`.
  - `world: seq<Action> -> Page` says which page is shown after any sequence of
    side-effecting actions.
  - A script that only reads the page is answered by the current page (`Query`).
  - A click, a navigation, a wait or a pause is appended to `trail` (`Run`,
    `LoadUrl`, `WaitFor`, `WaitForPageLoadEnd`, `Sleep`).
  - A `Page` answers every script with a `Response`: the `Success` flag and a
    `Result` that is null, a string, a list or something else.
- **A random source** (`random_pick.dfy`) is the class `Randomness.Rng`, an oracle
  `sample` with a draw counter. `PickRandomCar.CarPicker` is `HandlePickRandomCar`.
- **.NET primitives** (`text.dfy`, `numbers.dfy`):
  - `string.Trim`, `Split`, `Join` and `Contains`, and `char.IsWhiteSpace`;
  - `short.TryParse` and `decimal.TryParse`, and integer `ToString`.
- **The two regular expressions** of `HandleSpecificCarRead` (`definition_list.dfy`).
  Each is a declarative description of what .NET's `Regex.Match` / `Regex.Matches`
  report: leftmost match, greedy `\s*`, lazy `(.*?)`, `.` without and with
  `Singleline`, and `Regex.Escape`'d labels compared literally. Each has a
  hand-rolled matcher proved sound, complete and first against that description.
- **The DTO records** (`dto.dfy`) are datatypes. The per-filter holder
  `CarListAndCarDetailWithNotableHighlights` is the class `Dto.CarGroup`, because its
  properties are assigned in place. `ResultDto` is `Dto.ResultDoc`.
- **The four handlers** each have their own module: `SpecificCarRead`,
  `CarListRead`, `Filtering` and `NotableHighlight`.
  - The static fields of the handlers (`_siteUri`, `_searchResultUri`, `_rnd`)
    become fields of the classes `CarListRead.CarListReader`,
    `Filtering.FilterSelector` and `PickRandomCar.CarPicker`.
  - Each imperative method is proved against a specification function:
    `PageCars`, `Retry`, `Progress` and `HighlightFrom`.

Three behaviours of the code that are easy to misread, and that the model follows:

- **A missing basics or history label** gives `string.Empty`, not null
  (`HandleSpecificCarRead.cs:185`).
- **Retries.** The filter retry (`HandleFiltering.cs:85-95`) and the highlight
  fallback (`HandleNotableHighlight.cs:41-47`) have no bound. The model bounds both
  by `fuel`, and proves that each stops only on success or when the fuel is spent.
- **Additional features.** The additional-features query returns a member of the
  undefined global `documentdocument` (`HandleSpecificCarRead.cs:113`). It therefore
  fails on every page, and the model proves the list is always empty. Only scripts
  that start this way are taken to fail; card ids or selectors that merely contain
  the word are answered like any other script.

## Model

| member | source | states |
|---|---|---|
| Browser.TextOf | StockBridge.Entry/Handlers/HandleSpecificCarRead.cs:59-61 | a text exists exactly when the evaluation succeeded with a non-null result, and a string result is passed through unchanged |
| Browser.UndefinedGlobalAlwaysFails | StockBridge.Entry/Handlers/HandleSpecificCarRead.cs:113 | every wrapped script that returns a member of the undefined global `documentdocument` fails, on every page |
| Text.Trim | StockBridge.Entry/Handlers/HandleSpecificCarRead.cs:182 | the result is the input with its leading and trailing white space cut off: no white space is left at either end, and only white space was removed |
| Text.TrimUnique | StockBridge.Entry/Handlers/HandleSpecificCarRead.cs:182 | a string has exactly one trim |
| Text.TrimIdempotent | StockBridge.Entry/Handlers/HandleSpecificCarRead.cs:136 | trimming a trimmed string changes nothing |
| Text.ContainsMeansOccurs | StockBridge.Entry/Handlers/HandleCarListRead.cs:104 | `Contains` holds exactly when the needle occurs at some index |
| Text.Split | StockBridge.Entry/Handlers/HandleSpecificCarRead.cs:116 | splitting gives at least one piece, and no piece holds the separator |
| Text.JoinSplit | StockBridge.Entry/Handlers/HandleSpecificCarRead.cs:116 | joining the pieces of a split with the separator gives the text back |
| Text.SplitJoin | StockBridge.Entry/Handlers/HandleSpecificCarRead.cs:116 | splitting the join of separator-free pieces gives the pieces back |
| Numbers.ParseShort | StockBridge.Entry/Handlers/HandleCarListRead.cs:82 | a successful parse of a number lies in the 16-bit signed range |
| Numbers.ParseShortOfToString | StockBridge.Entry/Handlers/HandleSpecificCarRead.cs:37 | every 16-bit value written by `ToString` parses back to itself |
| Numbers.NatToStringValue | StockBridge.Entry/Handlers/HandleSpecificCarRead.cs:37 | the digits `ToString` writes denote the number written |
| Numbers.FractionValue | StockBridge.Entry/Handlers/HandleCarListRead.cs:85 | the digits after the decimal point add a value in [0, 1), and none when there are none |
| Numbers.ParseDecimalOfToString | StockBridge.Entry/Handlers/HandleCarListRead.cs:85 | `decimal.TryParse` reads back every integer that `ToString` writes |
| Numbers.DecimalTrailingSign | StockBridge.Entry/Handlers/HandleCarListRead.cs:85 | `NumberStyles.Number` also accepts a sign after the digits, with or without white space before it; `-` negates |
| Randomness.Below | StockBridge.Entry/Handlers/Helpers/HandlePickRandomCar.cs:28 | `Next(bound)` yields a value below a positive bound, and 0 for the bound 0 |
| Randomness.BelowReachesAll | StockBridge.Entry/Handlers/Helpers/HandlePickRandomCar.cs:28 | every value below the bound is yielded by some draw |
| Randomness.Rng.Next | StockBridge.Entry/Handlers/HandleFiltering.cs:63 | one draw, taken below `int.MaxValue`, and the counter advances by one |
| Randomness.Rng.NextBelow | StockBridge.Entry/Handlers/Helpers/HandlePickRandomCar.cs:28 | one draw, reduced below the bound, and the counter advances by one |
| PickRandomCar.PickedCar | StockBridge.Entry/Handlers/Helpers/HandlePickRandomCar.cs:28-29 | the picked car is an element of the non-empty list |
| PickRandomCar.EveryCarCanBePicked | StockBridge.Entry/Handlers/Helpers/HandlePickRandomCar.cs:28-29 | every car of the list is the pick of some draw |
| PickRandomCar.CarPicker.SetRandom | StockBridge.Entry/Handlers/Helpers/HandlePickRandomCar.cs:16-19 | the picker uses the given generator from then on |
| PickRandomCar.CarPicker.PickRandomCar | StockBridge.Entry/Handlers/Helpers/HandlePickRandomCar.cs:26-31 | the result is the list element at the drawn index; exactly one draw is used and the list is a value left unchanged |
| Dto.CarGroup.constructor | StockBridge.Dto/ResultDto.cs:17-22 | a new group has an empty detail, an empty list and empty highlights |
| Dto.ResultDoc.constructor | StockBridge.Dto/ResultDto.cs:5-9 | a new result holds two distinct, fresh, empty groups |
| DefinitionList.ValueAtComplete | StockBridge.Entry/Handlers/HandleSpecificCarRead.cs:178 | every basics/history match at a position is found there, with a group no longer than the match's own |
| DefinitionList.FindValueComplete | StockBridge.Entry/Handlers/HandleSpecificCarRead.cs:179 | the search misses no match, and reports the leftmost one with the shortest group |
| DefinitionList.FindValueFirst | StockBridge.Entry/Handlers/HandleSpecificCarRead.cs:179 | the hit found from the start is the match `Regex.Match` reports: a match, leftmost, and lazy |
| DefinitionList.FindValueNone | StockBridge.Entry/Handlers/HandleSpecificCarRead.cs:179-180 | when the search finds nothing, the pattern matches nowhere |
| DefinitionList.ExtractValue | StockBridge.Entry/Handlers/HandleSpecificCarRead.cs:176-186 | `string.Empty` when `<dt>LABEL</dt>\s*<dd[^>]*>(.*?)</dd>` matches nowhere; otherwise the trim of the group of the match `Regex.Match` reports, which ends at the first `</dd>` and holds no newline |
| DefinitionList.ListEndComplete | StockBridge.Entry/Handlers/HandleSpecificCarRead.cs:129 | the lazy list group ends at the first `</ul>\s*</dd>`, and one exists whenever the pattern can close |
| DefinitionList.ListAtComplete | StockBridge.Entry/Handlers/HandleSpecificCarRead.cs:129 | every `<ul[^>]*>(.*?)</ul>\s*</dd>` match at a position is found there, with a group no longer than its own |
| DefinitionList.DdAtComplete | StockBridge.Entry/Handlers/HandleSpecificCarRead.cs:129 | every `<dd>\s*<ul...` match at a position is found there, with the shortest group |
| DefinitionList.DtAtComplete | StockBridge.Entry/Handlers/HandleSpecificCarRead.cs:129 | every `</dt>\s*<dd>...` match at a position is found there, with the shortest group |
| DefinitionList.TailAtComplete | StockBridge.Entry/Handlers/HandleSpecificCarRead.cs:129 | every match of the pattern from the label on is found, with the shortest group |
| DefinitionList.FeatureFrom | StockBridge.Entry/Handlers/HandleSpecificCarRead.cs:129 | backtracking over the `\s*` after `<dt>` reports a full match whose label starts no later than where it began |
| DefinitionList.FeatureFromComplete | StockBridge.Entry/Handlers/HandleSpecificCarRead.cs:129 | backtracking finds a match whenever one exists, preferring the longest white-space run before the label |
| DefinitionList.FeatureAtComplete | StockBridge.Entry/Handlers/HandleSpecificCarRead.cs:129 | every feature match at a position is found there, with the longest white space before the label, then the shortest group |
| DefinitionList.FindFeatureSound | StockBridge.Entry/Handlers/HandleSpecificCarRead.cs:130 | what the feature search reports is a full match of the pattern |
| DefinitionList.FindFeatureComplete | StockBridge.Entry/Handlers/HandleSpecificCarRead.cs:130 | the feature search misses no match and reports the one backtracking prefers |
| DefinitionList.FindFeatureFirst | StockBridge.Entry/Handlers/HandleSpecificCarRead.cs:130 | the hit found from the start is the match `Regex.Match` reports with `Singleline` |
| DefinitionList.FindFeatureNone | StockBridge.Entry/Handlers/HandleSpecificCarRead.cs:130-132 | when the search finds nothing, the pattern matches nowhere |
| DefinitionList.ItemAtComplete | StockBridge.Entry/Handlers/HandleSpecificCarRead.cs:135 | every `<li[^>]*>(.*?)</li>` match at a position is found there, with the shortest one-line group |
| DefinitionList.FindItemComplete | StockBridge.Entry/Handlers/HandleSpecificCarRead.cs:135 | the item search misses no match and reports the leftmost, shortest one |
| DefinitionList.FindItemFirst | StockBridge.Entry/Handlers/HandleSpecificCarRead.cs:135 | the item found from a position is the first match at or after it |
| DefinitionList.FindItemNone | StockBridge.Entry/Handlers/HandleSpecificCarRead.cs:135 | when no item is found from a position, none matches at or after it |
| DefinitionList.Items | StockBridge.Entry/Handlers/HandleSpecificCarRead.cs:135 | the hits are what `Regex.Matches` reports: each the first match after the end of the one before, none left after the last, and every group within the text |
| DefinitionList.MatchSequenceUnique | StockBridge.Entry/Handlers/HandleSpecificCarRead.cs:135 | that description pins the sequence of matches down |
| DefinitionList.Groups | StockBridge.Entry/Handlers/HandleSpecificCarRead.cs:136 | one text per match, in order, each the trim of that match's group |
| DefinitionList.ItemTexts | StockBridge.Entry/Handlers/HandleSpecificCarRead.cs:135-136 | the texts are the trimmed groups of the `Regex.Matches` matches, in document order; an item spanning a newline is not one |
| DefinitionList.CapturesUnique | StockBridge.Entry/Handlers/HandleSpecificCarRead.cs:136 | the same matches give the same trimmed texts |
| DefinitionList.ItemTextsUnique | StockBridge.Entry/Handlers/HandleSpecificCarRead.cs:135-137 | a list's items are determined by its markup |
| DefinitionList.ExtractFeature | StockBridge.Entry/Handlers/HandleSpecificCarRead.cs:127-140 | null exactly when `<dt>\s*LABEL\s*</dt>\s*<dd>\s*<ul[^>]*>(.*?)</ul>\s*</dd>` matches nowhere; otherwise a list, possibly empty, of the item texts of the group of the match `Regex.Match` reports |
| SpecificCarRead.LabelValues | StockBridge.Entry/Handlers/HandleSpecificCarRead.cs:156-164 | one non-null value per label, each the basics/history extractor's result for that label |
| SpecificCarRead.Basics | StockBridge.Entry/Handlers/HandleSpecificCarRead.cs:147-168 | every field null when the section's markup cannot be read; otherwise the nine fields are the values of their nine labels, in order |
| SpecificCarRead.History | StockBridge.Entry/Handlers/HandleSpecificCarRead.cs:64-79 | every field null when the section's markup cannot be read; otherwise the three fields are the values of their three labels |
| SpecificCarRead.AdditionalFeatures | StockBridge.Entry/Handlers/HandleSpecificCarRead.cs:111-119 | an empty list when the query fails; otherwise the comma-separated, untrimmed pieces whose join is the text, none holding a comma |
| SpecificCarRead.LabelLists | StockBridge.Entry/Handlers/HandleSpecificCarRead.cs:95-99 | one result per label, each the feature extractor's result for that label |
| SpecificCarRead.Features | StockBridge.Entry/Handlers/HandleSpecificCarRead.cs:86-104 | every field null when the markup cannot be read; otherwise the five lists of their labels and additional features that are never null |
| SpecificCarRead.AdditionalFeaturesAlwaysEmpty | StockBridge.Entry/Handlers/HandleSpecificCarRead.cs:113 | whenever the features section is read, its additional features are the empty list |
| SpecificCarRead.ImageCount | StockBridge.Entry/Handlers/HandleSpecificCarRead.cs:34-37 | a 16-bit count: the parsed gallery attribute when it parses, and 0 when it cannot be read or does not parse |
| SpecificCarRead.ImageCountReadsAttribute | StockBridge.Entry/Handlers/HandleSpecificCarRead.cs:34-37 | a gallery that states a 16-bit count gets exactly that count |
| SpecificCarRead.DetailField | StockBridge.Entry/Handlers/HandleSpecificCarRead.cs:56-62 | null exactly when the query fails or answers null; a string answer is kept raw |
| SpecificCarRead.DetailFields | StockBridge.Entry/Handlers/HandleSpecificCarRead.cs:42-48 | each of the simple fields is read with its own selector |
| SpecificCarRead.DetailRecord | StockBridge.Entry/Handlers/HandleSpecificCarRead.cs:39-53 | the seven text fields land in the properties their selectors belong to |
| SpecificCarRead.DetailOf | StockBridge.Entry/Handlers/HandleSpecificCarRead.cs:39-53 | the address is the current one; the image count and the three sections are never null; each text field is what its own selector reads |
| SpecificCarRead.ReadImageCount | StockBridge.Entry/Handlers/HandleSpecificCarRead.cs:34-37 | the local image count ends as the page's image count |
| SpecificCarRead.GatherDetailedCarData | StockBridge.Entry/Handlers/HandleSpecificCarRead.cs:32-54 | only the group's detail is assigned, to the record of the page shown |
| SpecificCarRead.GatherRandomCarData | StockBridge.Entry/Handlers/HandleSpecificCarRead.cs:19-25 | one draw picks a car of the group's list, its page is loaded, and then the detail of that page is read; the list and highlights stay |
| CarListRead.CardScriptTargets | StockBridge.Entry/Handlers/HandleCarListRead.cs:131-141 | the script looks inside the card with the given id and asks for the given selector; its accessor is `textContent` exactly when no attribute is asked for and named, and the named attribute otherwise, and the script contains that accessor |
| CarListRead.CardField | StockBridge.Entry/Handlers/HandleCarListRead.cs:141-147 | `string.Empty` (never null) when the query fails or answers null; otherwise the cleaned text |
| CarListRead.CarOf | StockBridge.Entry/Handlers/HandleCarListRead.cs:79-118 | the id is the card id; sponsored exactly when the id contains "sponsored"; image count and rating are the parsed values, and 0 on a failed parse; the seller name only when the dealer name is blank; the badge never blank ("No Deal"); the address is the site base followed by the link |
| CarListRead.UnreadableLinkGivesSiteUri | StockBridge.Entry/Handlers/HandleCarListRead.cs:102 | a card whose link cannot be read points at the site base itself |
| CarListRead.CardIds | StockBridge.Entry/Handlers/HandleCarListRead.cs:57-63 | no ids when the id query fails or answers null; otherwise one id per list item, in order |
| CarListRead.CarsOfEach | StockBridge.Entry/Handlers/HandleCarListRead.cs:61-68 | one record per id, in id order |
| CarListRead.CarsOfSnoc | StockBridge.Entry/Handlers/HandleCarListRead.cs:66-67 | reading one more card appends exactly its record |
| CarListRead.PageCarsPerId | StockBridge.Entry/Handlers/HandleCarListRead.cs:54-71 | a page yields one record per card id, in id order, each read from the card with that id; none when the id query fails |
| CarListRead.CarListReader.constructor | StockBridge.Entry/Handlers/HandleCarListRead.cs:11 | no site base is set (the static field is null) until `SetSiteUri` |
| CarListRead.CarListReader.SetSiteUri | StockBridge.Entry/Handlers/HandleCarListRead.cs:17-20 | the site base becomes the given one |
| CarListRead.CarListReader.GetCarListDetailBySelector | StockBridge.Entry/Handlers/HandleCarListRead.cs:129-148 | the script built piece by piece gives exactly the card field for the current page |
| CarListRead.CarListReader.ParseCarDataFromString | StockBridge.Entry/Handlers/HandleCarListRead.cs:79-118 | the record built with the reassigned defaults is the card's record; the site base must be set, since building the address dereferences it |
| CarListRead.CarListReader.GetCurrentPagesCarResult | StockBridge.Entry/Handlers/HandleCarListRead.cs:54-71 | the loop returns the page's records, one per id in order; only a page with cards needs the site base set |
| CarListRead.CarListReader.GetCarsResult | StockBridge.Entry/Handlers/HandleCarListRead.cs:27-45 | the list keeps its contents, then gets the first page's records, then the second page's records; the actions sent are the click and the pause |
| CarListRead.TwoPageLength | StockBridge.Entry/Handlers/HandleCarListRead.cs:31-43 | the final length is the old length plus one per card of each page, with the old contents as its prefix |
| Filtering.SelectScriptTargets | StockBridge.Entry/Handlers/HandleFiltering.cs:64-69 | each attempt's script names the select element of its key and the option of its target, whatever the draw; the read-back names the select element |
| Filtering.Confirms | StockBridge.Entry/Handlers/HandleFiltering.cs:88 | confirmed exactly when the read-back succeeded with a string equal to the target |
| Filtering.OnlyTheTargetConfirms | StockBridge.Entry/Handlers/HandleFiltering.cs:88 | only the target string confirms, and for the empty target a null read-back does not |
| Filtering.Retry | StockBridge.Entry/Handlers/HandleFiltering.cs:61-95 | the retry gives up only when it has spent its fuel, and each attempt adds two actions |
| Filtering.RetryAdvance | StockBridge.Entry/Handlers/HandleFiltering.cs:88-93 | one attempt either confirms and stops, or leads to the next attempt from the new trail with the next draw |
| Filtering.RetryEndsConfirmed | StockBridge.Entry/Handlers/HandleFiltering.cs:88-93 | the trail only grows, and a confirmed run ends on a read-back that confirms |
| Filtering.RetryNoEarlierConfirm | StockBridge.Entry/Handlers/HandleFiltering.cs:85-95 | the read-back after each attempt before the last, and after the last of a run that ran out of fuel, did not confirm |
| Filtering.RetryStopsAtFirst | StockBridge.Entry/Handlers/HandleFiltering.cs:85-95 | the loop stops at the first read-back that confirms, so the attempts are its index plus one |
| Filtering.EmptyTargetNeedsEmptyString | StockBridge.Entry/Handlers/HandleFiltering.cs:34 | the filter with the empty target is confirmed only by an empty string read back |
| Filtering.Progress | StockBridge.Entry/Handlers/HandleFiltering.cs:33-37 | at most one try count per filter, and one for each filter when all are confirmed |
| Filtering.ProgressNext | StockBridge.Entry/Handlers/HandleFiltering.cs:33-37 | the next filter starts where the confirmed ones ended, and its attempts are added to theirs |
| Filtering.ProgressStops | StockBridge.Entry/Handlers/HandleFiltering.cs:33-37 | once a filter is not confirmed, no filter after it is tried |
| Filtering.ProgressDoneBefore | StockBridge.Entry/Handlers/HandleFiltering.cs:33-37 | when the filters are all confirmed, every earlier prefix of them was confirmed first |
| Filtering.RunnerSpends | StockBridge.Entry/Handlers/HandleFiltering.cs:61-95 | the retry loop gives up only after all its fuel, adds two actions per attempt, and only grows the trail |
| Filtering.ProgressCounts | StockBridge.Entry/Handlers/HandleFiltering.cs:33-37 | the run stops at the first filter never confirmed, after spending its fuel; the draws and the trail grow by the total attempts |
| Filtering.FilterSelector.constructor | StockBridge.Entry/Handlers/HandleFiltering.cs:20-23 | the selector starts with no result address and the given generator |
| Filtering.FilterSelector.SetRandom | StockBridge.Entry/Handlers/HandleFiltering.cs:20-23 | the generator becomes the given one; the result address stays |
| Filtering.FilterSelector.SelectOnce | StockBridge.Entry/Handlers/HandleFiltering.cs:63-88 | one draw, the set script and the wait; the result is whether the read-back on the new page confirms |
| Filtering.FilterSelector.SelectFilterOptions | StockBridge.Entry/Handlers/HandleFiltering.cs:61-95 | the loop ends exactly as the retry specification says, with one draw per attempt |
| Filtering.FilterSelector.SelectFilters | StockBridge.Entry/Handlers/HandleFiltering.cs:33-37 | the five filters are run in their fixed order, each only after the previous one is confirmed |
| Filtering.FilterSelector.SelectFiltersAndClickSearchButton | StockBridge.Entry/Handlers/HandleFiltering.cs:30-51 | the zip code and the search click are sent, and the address after the load is recorded, only when all five filters are confirmed |
| NotableHighlight.Part | StockBridge.Entry/Handlers/HandleNotableHighlight.cs:73-83 | null when the query fails or answers null; otherwise the cleaned text |
| NotableHighlight.Highlights | StockBridge.Entry/Handlers/HandleNotableHighlight.cs:58-63 | each of the three fields is null exactly when its own query fails, and otherwise the cleaned text that query read |
| NotableHighlight.HighlightFrom | StockBridge.Entry/Handlers/HandleNotableHighlight.cs:20-48 | the loop uses at most one draw per fallback |
| NotableHighlight.HighlightEndsWithClick | StockBridge.Entry/Handlers/HandleNotableHighlight.cs:22-27 | the loop keeps what was sent before it and ends with a click; it succeeds exactly when that last click opened the modal |
| NotableHighlight.HighlightFallback | StockBridge.Entry/Handlers/HandleNotableHighlight.cs:41-47 | a failed attempt loads a car picked from the same list and starts again |
| NotableHighlight.HighlightStops | StockBridge.Entry/Handlers/HandleNotableHighlight.cs:22-32 | the loop stops after a click when the modal opened or nothing is left to try |
| NotableHighlight.FirstPageSuffices | StockBridge.Entry/Handlers/HandleNotableHighlight.cs:22-27 | when the first click opens the modal, no other car is visited and no draw is used |
| NotableHighlight.LoadsStayInList | StockBridge.Entry/Handlers/HandleNotableHighlight.cs:43-44 | every page the loop navigates to is the page of a car of the list |
| NotableHighlight.HighlightStopsAtFirst | StockBridge.Entry/Handlers/HandleNotableHighlight.cs:22-47 | the loop stops at the first click that opens the modal: each click it sent before its last did not |
| NotableHighlight.GivesUpOnlyWhenSpent | StockBridge.Entry/Handlers/HandleNotableHighlight.cs:41-47 | the loop gives up only when the list is empty or every fallback was used |
| NotableHighlight.SingleCarRevisited | StockBridge.Entry/Handlers/HandleNotableHighlight.cs:43-47 | cars can be revisited: with one car, every fallback loads that same car |
| NotableHighlight.OpenHomeDelivery | StockBridge.Entry/Handlers/HandleNotableHighlight.cs:22-26 | the click is sent, and the modal counts as open exactly when the click succeeded and the modal's body then reads as non-null |
| NotableHighlight.GetPartOfNotableHighlightDatas | StockBridge.Entry/Handlers/HandleNotableHighlight.cs:73-83 | the method returns the highlight part of the current page |
| NotableHighlight.ParseNotableHighlightData | StockBridge.Entry/Handlers/HandleNotableHighlight.cs:56-65 | the three highlights are assigned together, and the list and the detail stay |
| NotableHighlight.Attempts | StockBridge.Entry/Handlers/HandleNotableHighlight.cs:20-48 | the loop ends exactly as the fallback specification says |
| NotableHighlight.GetNotableHighlights | StockBridge.Entry/Handlers/HandleNotableHighlight.cs:20-33 | the highlights are assigned only on success, from the page where the modal opened; the list and the detail never change, so the highlights may be of another car than the detail |

## Left out

- The CefSharp browser is an oracle: the page shown after each sequence of actions.
  The live DOM, script semantics and the timing of `EvaluateScriptAsync`,
  `LoadUrlAsync`, `WaitForSelectorAsync` and `browser.Address` are not modelled. A
  script that only reads is taken to see the page as it stands after the last
  logged action.
- async/await suspension, and the timing of `Thread.Sleep`, are not modelled. A sleep
  is logged as a `Pause` because the page may change meanwhile.
- `HandleConsole.AddStatus` does logging only and is not modelled. `HandleLoad`'s
  wait is the logged `WaitForLoad` action.
- `ClearUnwantedCharacters` is an opaque parameter `clean`: its body is not part of
  this model, and nothing is assumed about it.
- `FilterForModelX` (HandleFiltering.cs:102-117) is a reload, two sleeps and a click,
  with no decision. `HandleLogin.cs`, `Program.cs`, `HandleNewtonsoft.cs` and
  `ConfigManager` are initialisation, login, orchestration and JSON output, and are
  not part of this model either.
- `CarListDto.cs` declares an internal `CarDto` that nothing uses. Its `DealerDto`
  duplicates the public one. The declaration of `NotableHighlightsDto` is not part
  of this model; its three fields follow their assignment at
  HandleNotableHighlight.cs:58-63.
- `System.Random` is an oracle of draws. Its distribution is not modelled, and
  `Next()` is `sample % int.MaxValue`.
- Numbers.ParseShort: culture is not modelled. The model uses the invariant culture:
  white space, a sign, digits and the 16-bit range, with no thousands separators,
  currency or parentheses.
- Numbers.ParseDecimal: the same applies, with `.` as the decimal point. A leading
  or a trailing sign is accepted. Thousands separators, which `NumberStyles.Number`
  allows, are rejected, and the 28-digit limit of `decimal` is not modelled.
- Filtering.FilterSelector.SelectFilterOptions: the source retries without a
  ceiling. The model makes at most `fuel` attempts per filter, and reports failure
  when they are spent.
- Filtering.FilterSelector.SelectFiltersAndClickSearchButton: when a filter is never
  confirmed, the source never returns. The model returns `false` without touching the
  zip code, the search button or the recorded address. The five calls are grouped
  into `SelectFilters`.
- NotableHighlight.GetNotableHighlights: the source's fallback is unbounded. The
  model tries at most `fuel` further cars. With an empty car list the source throws
  while picking a car; the model stops without success.
- CarListRead.CarListReader.GetCurrentPagesCarResult: the precondition
  `IdsReadable` excludes an id query that answers a non-null value that is not a
  list, where the source's `as List<object>` gives null and the `foreach` throws.
- CarListRead.CarListReader.GetCarsResult: the source receives the list itself. The
  model receives the group that owns it, which is how the list is reached from the
  caller. Like `GetCurrentPagesCarResult`, it requires the site base to be set
  unless both pages have no cards, because the source throws on a null `_siteUri`.
- CarListRead.CarListReader.SetSiteUri: the `SiteUriDto` is reduced to its
  `SiteUri` string; a DTO whose `SiteUri` is itself null is not modelled.
- PickRandomCar.CarPicker.PickRandomCar and SpecificCarRead.GatherRandomCarData
  require a non-empty list, because the source throws on an empty one.
- Dto: `decimal` is a `real` and `short` an integer whose range is stated where it
  is produced. A nullable DTO property is an `Option` only where the source may leave
  it null; in `CarMinimized` every property is always assigned a value, so none is.
