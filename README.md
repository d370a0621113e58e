# Pillo — a verified model of the medication screens

Pillo is a mobile-first medication tracker. This project models, in Dafny, the logic behind its screens:

- **Today's checklist.** Medicines are grouped by time of day. The user picks a dosage per medicine, and one Log button marks every chosen medicine taken.
- **Pill box.** The saved medications, with:
  - swipe-to-delete cards;
  - a low-stock banner;
  - a five-step add-medication wizard (Name, Form, Strength, Color, Review).
- **Extended wizard.** The step screens of the larger wizard: strengths, dosing type, schedule, and the review summary.
- **Medication detail page.** Adherence percentage, unit wording and recent logs.
- **History filter bar.**
- **Week strip.** Used to pick a day.

Each screen is one Dafny module:
- What a handler computes from the current props or state is a function on values.
- Where a component keeps state that its handlers update, the model is a class:
  - `AddMedicationFlow.Wizard`
  - `PillBoxPage.PillBox`
  - `IndexPage.Checklist`
  - `SwipeableCard.Card`
  - `WeekCalendar.Calendar`
  - `ScheduleStep.EndDateSection`

  Each handler becomes a method whose `ensures` gives the new state in terms of those functions.

The JavaScript string and number operations the screens depend on are written out explicitly (module `Text`):
- `trim`, `join` and `split`;
- `parseInt` without a radix;
- `toLowerCase` on ASCII letters;
- `includes`;
- the default `sort()` order.

The truncating `%` of the clock conversion is written out in module `TimeFormat` (`JsRem12`).

Randomness, the clock and "today" are parameters:
- `crypto.randomUUID()` becomes a `freshId` argument;
- `new Date()` becomes an hour or a day number;
- date formatting becomes a function argument.

The extended wizard's form record (`ExtendedFormData`) is built from the fields that `DosingTypeStep.tsx`, `ScheduleStep.tsx` and `ReviewStep.tsx` actually read. The `types.ts` in the repository only declares the five-step flow's record. Where the two disagree, the model follows the components' code.

## Model

| member | source | states |
|---|---|---|
| Base.RemoveAll | src/components/History/HistoryFilters.tsx:37 | `filter(y => y !== x)`: x is gone, every other element keeps its membership, and an absent x leaves the list unchanged |
| Base.RemoveAllAppend | src/components/History/HistoryFilters.tsx:37 | filtering distributes over concatenation, so survivors keep their order |
| Base.Toggle | src/components/History/HistoryFilters.tsx:35-41 | includes-then-filter-else-append flips membership of x, leaves every other element's membership alone, and appends an absent x at the end |
| Base.ToggleTwiceAbsent | src/components/History/HistoryFilters.tsx:35-41 | toggling an absent item twice returns the very same list |
| Base.ToggleTwicePresent | src/components/History/HistoryFilters.tsx:35-41 | toggling a present item twice keeps the same members, with the item moved to the end |
| Text.TrimStartShape | src/components/PillBox/AddMedication/AddMedicationFlow.tsx:50 | trimStart yields a suffix of the input that does not start with whitespace, and only whitespace was dropped |
| Text.TrimEndShape | src/components/PillBox/AddMedication/AddMedicationFlow.tsx:50 | trimEnd yields a prefix of the input that does not end with whitespace, and only whitespace was dropped |
| Text.BlankIffAllWhitespace | src/components/PillBox/AddMedication/AddMedicationFlow.tsx:50 | `s.trim().length > 0` fails exactly when every character is ECMAScript whitespace |
| Text.TrimShape | src/components/PillBox/AddMedication/AddMedicationFlow.tsx:97 | trim yields a middle slice of the input that starts and ends with non-whitespace, or is empty |
| Text.TrimStart | src/components/PillBox/AddMedication/AddMedicationFlow.tsx:50 | never longer than the input, and does not start with whitespace (TrimStartShape: only leading whitespace dropped) |
| Text.TrimEnd | src/components/PillBox/AddMedication/AddMedicationFlow.tsx:50 | never longer than the input, and does not end with whitespace (TrimEndShape: only trailing whitespace dropped) |
| Text.Trim | src/components/PillBox/AddMedication/AddMedicationFlow.tsx:97 | `trim()`: never longer than the input, empty or bounded by non-whitespace at both ends |
| Text.IsBlank | src/components/PillBox/AddMedication/AddMedicationFlow.tsx:89 | `!s.trim()`: the empty string is blank, a string starting with a non-whitespace character is not (BlankIffAllWhitespace gives the exact condition) |
| Text.Join | src/components/PillBox/LowStockWarning.tsx:22 | `parts.join(sep)`: one part is returned as it is |
| Text.JoinSplit | src/components/PillBox/LowStockWarning.tsx:22 | joining a split list is the two joins with one separator between them |
| Text.JoinSnoc | src/components/PillBox/LowStockWarning.tsx:22 | appending a part appends a separator and that part |
| Text.JoinEmpty | src/components/PillBox/AddMedication/ReviewStep.tsx:28 | with a non-empty separator the join is empty only for no parts or one empty part |
| Text.JoinContainsPart | src/components/PillBox/LowStockWarning.tsx:22 | every part occurs, unchanged, at its offset in the joined string |
| Text.JoinOrder | src/components/PillBox/LowStockWarning.tsx:22 | consecutive parts sit one separator apart, in input order |
| Text.NatToString | src/pages/PillBox.tsx:96 | `String(n)`: at least one digit, all decimal digits, no leading zero except for 0 itself |
| Text.DecimalOfNatToString | src/pages/PillBox.tsx:96 | reading the printed digits back gives the number |
| Text.ParseUnsignedOfDigits | src/components/PillBox/AddMedication/ScheduleStep.tsx:169 | a non-empty run of digits is read whole, in decimal |
| Text.ParseIntOfDigits | src/components/PillBox/AddMedication/ScheduleStep.tsx:169 | `parseInt` on a non-empty run of digits gives its decimal value |
| Text.ParseIntOfNatToString | src/components/PillBox/AddMedication/ScheduleStep.tsx:169 | `parseInt(String(n)) === n`, so printing and parsing are inverse |
| Text.ParseUnsigned | src/components/PillBox/AddMedication/ScheduleStep.tsx:169 | NaN for empty text or text not starting with a digit; otherwise, without a hex prefix, the decimal value of the longest digit prefix |
| Text.ParseInt | src/components/PillBox/AddMedication/ScheduleStep.tsx:169 | `parseInt` with no radix: NaN on all-whitespace text; ParseIntOfDigits and ParseIntOfNatToString give its value on digit runs |
| Text.IndexOf | src/pages/MedicationDetail.tsx:238 | the first index of c, and none exactly when c does not occur |
| Text.FirstField | src/pages/MedicationDetail.tsx:61 | `split(c)[0]` contains no separator |
| Text.SecondField | src/pages/MedicationDetail.tsx:61 | `split(c)[1]` is absent exactly when there is no separator, and contains none itself |
| Text.IndexOfAfter | src/pages/MedicationDetail.tsx:61 | in `a + c + b` with no c in a, the first c is at `\|a\|` |
| Text.SplitFields | src/pages/MedicationDetail.tsx:61 | splitting `a + ":" + b` gives back a and b |
| Text.ToLower | src/pages/MedicationDetail.tsx:178 | `toLowerCase` keeps the length and maps each character |
| Text.Contains | src/pages/MedicationDetail.tsx:178 | `includes` holds exactly when the pattern occurs at some index |
| Text.StringLeqTotal | src/components/PillBox/AddMedication/ScheduleStep.tsx:94 | the string order `sort()` uses compares any two strings |
| MedicationTypes.TimeFrameTypeName | src/integrations/supabase/types.ts:245 | the wire name of each time frame, never empty |
| MedicationTypes.StrengthLabels | src/components/PillBox/AddMedication/AddMedicationFlow.tsx:90 | one untrimmed value-and-unit label per entry, in order |
| MedicationTypes.StrengthLabel | src/components/PillBox/AddMedication/AddMedicationFlow.tsx:90 | `${value}${unit}`: empty exactly when value and unit are both empty |
| MedicationTypes.ValidStrengths | src/components/PillBox/AddMedication/AddMedicationFlow.tsx:88-89 | exactly the entries whose value is not blank after trimming |
| MedicationTypes.ValidStrengthsAppend | src/components/PillBox/AddMedication/AddMedicationFlow.tsx:88-89 | the filter distributes over concatenation, so kept entries stay in order |
| MedicationTypes.SomeStrengthFilledIffValid | src/components/PillBox/AddMedication/AddMedicationFlow.tsx:57 | the Strength step's `some` check holds exactly when the list save keeps is non-empty |
| MedicationTypes.BackgroundHex | src/pages/MedicationDetail.tsx:50-53 | the hex of the first table entry with that name, or white when there is none or its hex is empty; never empty |
| MedicationTypes.DisplayForm | src/components/PillBox/AddMedication/AddMedicationFlow.tsx:92-94 | the custom text replaces the form only for "Other" with a non-empty custom text; otherwise the chosen form |
| AddMedicationFlow.InitialFormData | src/components/PillBox/AddMedication/AddMedicationFlow.tsx:22-34 | empty name and form, an empty custom form text, colour "blue", one blank "mg" strength with the id drawn at load |
| AddMedicationFlow.CanProceedMeaning | src/components/PillBox/AddMedication/AddMedicationFlow.tsx:47-65 | per step, both directions: Name needs a non-whitespace character; Form needs one in the custom text for "Other", otherwise any form; Strength needs a value with one; Color needs a colour; Review always passes; any other index fails |
| AddMedicationFlow.CanProceed | src/components/PillBox/AddMedication/AddMedicationFlow.tsx:47-65 | `canProceed`: the Review step always passes, an index outside the five steps never does; CanProceedMeaning gives every step's condition |
| AddMedicationFlow.UpdateFormData | src/components/PillBox/AddMedication/AddMedicationFlow.tsx:109-114 | the named field takes the new value and every other field keeps its old one |
| AddMedicationFlow.UpdateKeepsOtherChecks | src/components/PillBox/AddMedication/AddMedicationFlow.tsx:152-177 | an edit on one step's screen changes no other step's check |
| AddMedicationFlow.SaveTransform | src/components/PillBox/AddMedication/AddMedicationFlow.tsx:87-103 | the trimmed name; the non-blank strengths as value-and-unit labels in order; the resolved form; zero stock; not low; the colour |
| AddMedicationFlow.AllWellFormedSnoc | src/components/PillBox/AddMedication/AddMedicationFlow.tsx:105 | appending a well-formed record keeps every saved record well formed |
| AddMedicationFlow.SaveKeepsWellFormed | src/components/PillBox/AddMedication/AddMedicationFlow.tsx:87-107 | saving after the four checks keeps every saved record well formed |
| AddMedicationFlow.SavePassedStepsWellFormed | src/components/PillBox/AddMedication/AddMedicationFlow.tsx:47-65 | passing Name, Form, Strength and Color guarantees the saved record has: a name with no surrounding whitespace, at least one strength, a form, a colour, and empty stock |
| AddMedicationFlow.FilledThenBlank | src/components/PillBox/AddMedication/AddMedicationFlow.tsx:88-89 | a filled entry followed by a blank one filters to the filled one |
| AddMedicationFlow.SaveDropsBlankStrengths | src/components/PillBox/AddMedication/AddMedicationFlow.tsx:88-90 | "500" mg plus a blank entry saves as the single label "500mg" |
| AddMedicationFlow.Wizard.constructor | src/components/PillBox/AddMedication/AddMedicationFlow.tsx:41-42 | the wizard opens on step 0 with the initial data and nothing saved |
| AddMedicationFlow.Wizard.Edit | src/components/PillBox/AddMedication/AddMedicationFlow.tsx:152-177 | an edit on the current step's screen updates that field, and every step already passed still passes |
| AddMedicationFlow.Wizard.Next | src/components/PillBox/AddMedication/AddMedicationFlow.tsx:67-73 | a disabled button does nothing; before the last step, advance by one; on the last step, hand the save transform on and reset closed |
| AddMedicationFlow.Wizard.NextEnabled | src/components/PillBox/AddMedication/AddMedicationFlow.tsx:197 | the Next button is enabled only on one of the five steps, as `canProceed` says for the current step and data |
| AddMedicationFlow.Wizard.Back | src/components/PillBox/AddMedication/AddMedicationFlow.tsx:75-79 | one step back, nothing on the first step, data kept |
| AddMedicationFlow.Wizard.Close | src/components/PillBox/AddMedication/AddMedicationFlow.tsx:81-85 | from any step, back to step 0 with the initial data, reported closed |
| AddMedicationFlow.Wizard.Save | src/components/PillBox/AddMedication/AddMedicationFlow.tsx:87-107 | appends the save transform of the current data, closes, and keeps every saved record well formed |
| ScheduleStep.UpdateSchedule | src/components/PillBox/AddMedication/ScheduleStep.tsx:48-50 | the named schedule field takes the new value and every other field is kept |
| ScheduleStep.UpdateScheduleLaws | src/components/PillBox/AddMedication/ScheduleStep.tsx:48-50 | a later write of the same key wins, writes of different keys commute, and writing a field's own value changes nothing |
| ScheduleStep.AddSpecificTime | src/components/PillBox/AddMedication/ScheduleStep.tsx:52-54 | "12:00" is appended after the existing times, and nothing else changes |
| ScheduleStep.RemoveAt | src/components/PillBox/AddMedication/ScheduleStep.tsx:60 | the entry at the index is dropped and the rest keep their order; an out-of-range index changes nothing |
| ScheduleStep.RemoveSpecificTime | src/components/PillBox/AddMedication/ScheduleStep.tsx:56-63 | removes only while more than one time is listed, so at least one time always remains |
| ScheduleStep.UpdateSpecificTime | src/components/PillBox/AddMedication/ScheduleStep.tsx:65-69 | only the time at the index changes; everything else is kept |
| ScheduleStep.ShowRemoveTimeMeaning | src/components/PillBox/AddMedication/ScheduleStep.tsx:236 | the remove button is shown exactly when pressing it would change the schedule |
| ScheduleStep.ShowRemoveTime | src/components/PillBox/AddMedication/ScheduleStep.tsx:236 | when the button is hidden, a press at any index would leave the schedule unchanged |
| ScheduleStep.Kinds | src/components/PillBox/AddMedication/ScheduleStep.tsx:72 | the set of time-frame kinds present |
| ScheduleStep.RemoveKind | src/components/PillBox/AddMedication/ScheduleStep.tsx:76 | exactly the frames of other kinds survive; their order comes from RemoveKindConcat |
| ScheduleStep.RemoveKindConcat | src/components/PillBox/AddMedication/ScheduleStep.tsx:76 | the filter distributes over concatenation, so the frames kept stay in their order |
| ScheduleStep.ToggleTimeFrame | src/components/PillBox/AddMedication/ScheduleStep.tsx:71-84 | a present kind removes all its frames; an absent kind appends one frame with the fresh id; nothing else changes |
| ScheduleStep.ToggleTimeFrameKinds | src/components/PillBox/AddMedication/ScheduleStep.tsx:71-84 | the toggled kind flips in the set of selected kinds, and the other kinds are unaffected |
| ScheduleStep.ToggleTimeFrameTwice | src/components/PillBox/AddMedication/ScheduleStep.tsx:71-84 | two toggles restore the set of kinds, and restore the whole schedule when the kind started absent |
| ScheduleStep.RemoveKindAppend | src/components/PillBox/AddMedication/ScheduleStep.tsx:76-81 | removing a kind just appended to a list without it gives the list back |
| ScheduleStep.InsertByKey | src/components/PillBox/AddMedication/ScheduleStep.tsx:94 | insertion adds exactly x to the multiset of elements |
| ScheduleStep.InsertByKeySorted | src/components/PillBox/AddMedication/ScheduleStep.tsx:94 | inserting into a list sorted in string order keeps it sorted |
| ScheduleStep.SortByKey | src/components/PillBox/AddMedication/ScheduleStep.tsx:94 | `sort()` returns a permutation of its input |
| ScheduleStep.SortByKeySorted | src/components/PillBox/AddMedication/ScheduleStep.tsx:94 | `sort()` returns a list sorted by the string form of its numbers |
| ScheduleStep.KeyLeqDigits | src/components/PillBox/AddMedication/ScheduleStep.tsx:17-25 | on weekday digits, string order is numeric order |
| ScheduleStep.ToggleDay | src/components/PillBox/AddMedication/ScheduleStep.tsx:86-96 | an absent list counts as empty; a present day is filtered out; an absent day is appended and the list sorted; nothing else changes |
| ScheduleStep.RemoveAllIncreasing | src/components/PillBox/AddMedication/ScheduleStep.tsx:91 | filtering keeps an increasing list increasing |
| ScheduleStep.SortedDistinctWeekdaysIncreasing | src/components/PillBox/AddMedication/ScheduleStep.tsx:94 | weekdays sorted in string order, without repeats, are strictly increasing |
| ScheduleStep.CountsOneDistinct | src/components/PillBox/AddMedication/ScheduleStep.tsx:88-94 | a list in which every value occurs once has no two equal entries |
| ScheduleStep.ToggleDayKeepsIncreasing | src/components/PillBox/AddMedication/ScheduleStep.tsx:86-96 | toggling a weekday keeps the day list strictly increasing, within 0..6, and flips exactly that day's membership |
| ScheduleStep.IncreasingCountsOne | src/components/PillBox/AddMedication/ScheduleStep.tsx:94 | an increasing list holds every value at most once |
| ScheduleStep.CycleDaysInput | src/components/PillBox/AddMedication/ScheduleStep.tsx:169 | `parseInt(text) \|\| 1`: NaN and 0 store 1, and any other parsed number is stored as it is |
| ScheduleStep.CycleDaysShown | src/components/PillBox/AddMedication/ScheduleStep.tsx:168 | `value \|\| 1`: an absent or zero value shows 1, and any other value shows itself |
| ScheduleStep.CycleDaysRoundTrip | src/components/PillBox/AddMedication/ScheduleStep.tsx:168-169 | typing a positive number stores it, and the input shows it back |
| ScheduleStep.CycleDaysShownStored | src/components/PillBox/AddMedication/ScheduleStep.tsx:168-169 | whatever is typed, the input shows what was stored |
| ScheduleStep.SetCycleOnDays | src/components/PillBox/AddMedication/ScheduleStep.tsx:169 | only the days-on field changes |
| ScheduleStep.SetCycleOffDays | src/components/PillBox/AddMedication/ScheduleStep.tsx:179 | only the days-off field changes |
| ScheduleStep.EndDateSection.constructor | src/components/PillBox/AddMedication/ScheduleStep.tsx:46 | the section starts open exactly when the schedule has an end date |
| ScheduleStep.EndDateSection.Toggle | src/components/PillBox/AddMedication/ScheduleStep.tsx:323-328 | flips the flag; hiding clears the end date, showing keeps the schedule; a hidden section never has an end date |
| ScheduleStep.EndDateSection.PickEndDate | src/components/PillBox/AddMedication/ScheduleStep.tsx:351-353 | a pick (or a cleared pick) writes the end date and keeps the section open |
| DosingTypeStep.ToggleStrength | src/components/PillBox/AddMedication/DosingTypeStep.tsx:27-39 | fixed dosing selects exactly the clicked id; flexible dosing flips its membership and keeps all others |
| DosingTypeStep.ToggleStrengthTwice | src/components/PillBox/AddMedication/DosingTypeStep.tsx:27-39 | two flexible clicks restore the selection (the same list when the id started unselected); two fixed clicks select just that id |
| DosingTypeStep.ChooseDosingType | src/components/PillBox/AddMedication/DosingTypeStep.tsx:68-71 | the type is set, the selection cleared, nothing else changes |
| DosingTypeStep.DecrementQuantity | src/components/PillBox/AddMedication/DosingTypeStep.tsx:160 | one less, never below 1 |
| DosingTypeStep.IncrementQuantity | src/components/PillBox/AddMedication/DosingTypeStep.tsx:173 | one more |
| DosingTypeStep.QuantityButtons | src/components/PillBox/AddMedication/DosingTypeStep.tsx:160-173 | plus then minus is the identity from 1 up; an enabled minus subtracts exactly one; the quantity stays at least 1 |
| DosingTypeStep.DecrementDisabled | src/components/PillBox/AddMedication/DosingTypeStep.tsx:161 | a disabled minus button sits where pressing would give 1; an enabled one lowers by exactly one |
| DosingTypeStep.FindIndexById | src/components/PillBox/AddMedication/DosingTypeStep.tsx:43 | the first index with that id, and none exactly when no entry has it |
| DosingTypeStep.FindById | src/components/PillBox/AddMedication/DosingTypeStep.tsx:43 | the first entry with that id (no earlier entry has it), and none exactly when no entry has it |
| DosingTypeStep.GetSelectedStrength | src/components/PillBox/AddMedication/DosingTypeStep.tsx:41-44 | nothing for an empty selection; otherwise the first non-blank entry, in list order, whose id is the first selected id, found whenever one exists |
| DosingTypeStep.FixedClickSelects | src/components/PillBox/AddMedication/DosingTypeStep.tsx:27-44 | with unique ids, a fixed-mode click on an offered strength makes exactly that strength the selected one |
| DosingTypeStep.SelectedLabels | src/components/PillBox/AddMedication/DosingTypeStep.tsx:194-199 | every label is non-empty and belongs to an offered, selected strength |
| DosingTypeStep.SelectedLabelsAppend | src/components/PillBox/AddMedication/DosingTypeStep.tsx:194-199 | labels follow selection order |
| DosingTypeStep.SelectedLabelsAllFound | src/components/PillBox/AddMedication/DosingTypeStep.tsx:194-199 | when every selected id is offered, there is one label per selected id |
| DosingTypeStep.SelectedLabelsAt | src/components/PillBox/AddMedication/DosingTypeStep.tsx:194-199 | with every selected id offered, label i is the label of the strength selected i-th |
| DosingTypeStep.SelectedLabelsSnoc | src/components/PillBox/AddMedication/DosingTypeStep.tsx:194-199 | an offered last id adds that strength's label at the end |
| DosingTypeStep.FlexibleSummary | src/components/PillBox/AddMedication/DosingTypeStep.tsx:194-200 | empty exactly when no selected id names an offered strength (so for an empty selection) |
| DosingTypeStep.FlexibleSummaryPart | src/components/PillBox/AddMedication/DosingTypeStep.tsx:194-200 | each label sits, unchanged, at the place of its part in the summary |
| DosingTypeStep.FlexibleSummaryListsSelection | src/components/PillBox/AddMedication/DosingTypeStep.tsx:194-200 | with every selected id offered: one label per selected id, the i-th selected strength's label at part i, the next after ", " |
| DosingTypeStep.ShowQuantity | src/components/PillBox/AddMedication/DosingTypeStep.tsx:151 | the quantity row shows exactly for fixed dosing with a non-empty selection |
| DosingTypeStep.ShowFlexibleSummary | src/components/PillBox/AddMedication/DosingTypeStep.tsx:190 | the summary line shows exactly for flexible dosing with a non-empty selection |
| DosingTypeStep.ChooseDosingTypeHidesRows | src/components/PillBox/AddMedication/DosingTypeStep.tsx:68-71 | right after either type button, neither row shows |
| MedicationStrengthStep.Ids | src/components/PillBox/AddMedication/MedicationStrengthStep.tsx:50-51 | the entries' ids, in order |
| MedicationStrengthStep.AddStrength | src/components/PillBox/AddMedication/MedicationStrengthStep.tsx:17-22 | the list plus one blank "mg" entry with the fresh id at the end |
| MedicationStrengthStep.AddStrengthKeepsValid | src/components/PillBox/AddMedication/MedicationStrengthStep.tsx:17-22 | adding a blank entry changes nothing that is saved or counted |
| MedicationStrengthStep.RemoveId | src/components/PillBox/AddMedication/MedicationStrengthStep.tsx:26 | exactly the entries with other ids survive; their order comes from RemoveIdAppend |
| MedicationStrengthStep.RemoveIdAppend | src/components/PillBox/AddMedication/MedicationStrengthStep.tsx:26 | the filter distributes over concatenation, so the entries kept stay in their order |
| MedicationStrengthStep.RemoveStrength | src/components/PillBox/AddMedication/MedicationStrengthStep.tsx:24-28 | filters by id only while more than one entry is listed |
| MedicationStrengthStep.RemoveIdAbsent | src/components/PillBox/AddMedication/MedicationStrengthStep.tsx:26 | removing an absent id changes nothing |
| MedicationStrengthStep.RemoveIdUnique | src/components/PillBox/AddMedication/MedicationStrengthStep.tsx:26 | with unique ids, removing a present id drops exactly one entry |
| MedicationStrengthStep.RemoveStrengthNeverEmpties | src/components/PillBox/AddMedication/MedicationStrengthStep.tsx:24-28 | with unique ids the button never empties the list; it drops exactly one entry for a present id, nothing for an absent one |
| MedicationStrengthStep.UpdateStrength | src/components/PillBox/AddMedication/MedicationStrengthStep.tsx:30-36 | entries with the id get the field set; all others are unchanged; the length is kept |
| MedicationStrengthStep.UpdateStrengthKeepsIds | src/components/PillBox/AddMedication/MedicationStrengthStep.tsx:30-36 | an edit keeps every id in place, so unique ids stay unique |
| MedicationStrengthStep.AddRemoveKeepUniqueIds | src/components/PillBox/AddMedication/MedicationStrengthStep.tsx:17-28 | adding with an unused id and removing both keep ids unique |
| MedicationStrengthStep.RemoveIdKeepsUnique | src/components/PillBox/AddMedication/MedicationStrengthStep.tsx:26 | filtering keeps unique ids unique |
| MedicationStrengthStep.ShowRemoveStrength | src/components/PillBox/AddMedication/MedicationStrengthStep.tsx:56 | when the remove control shows, pressing it filters by id; when it is hidden, a press would change nothing |
| TimeFormat.JsRem12 | src/pages/MedicationDetail.tsx:64 | JavaScript's `% 12`: Euclidean for non-negative hours, sign of the dividend for negative ones |
| TimeFormat.DisplayHour | src/pages/MedicationDetail.tsx:64 | `hour % 12 \|\| 12`: never 0; 1..12 for a non-negative hour; 12 for NaN |
| TimeFormat.Meridiem | src/pages/MedicationDetail.tsx:63 | "PM" exactly for a parsed hour of 12 or more; NaN gives "AM" |
| TimeFormat.FormatClockTime | src/pages/MedicationDetail.tsx:60-66 | on "digits:minutes" the output is the 12-hour hour, the untouched minutes and the suffix |
| TimeFormat.FormatTime | src/pages/MedicationDetail.tsx:60-66 | `formatTime`: the output always ends in " AM" or " PM"; FormatClockTime and FormatDayTime give the whole text |
| TimeFormat.ClockHoursDistinct | src/components/PillBox/AddMedication/ReviewStep.tsx:46-47 | within a day, the 12-hour hour and the suffix together identify the hour |
| TimeFormat.TwoDigits | src/components/PillBox/AddMedication/ScheduleStep.tsx:229 | two decimal digits whose value is the number, the "HH:mm" form a time input yields |
| TimeFormat.FormatDayTime | src/components/PillBox/AddMedication/ReviewStep.tsx:41-50 | every "HH:mm" of a day converts to its 12-hour hour, the same minutes, and the right suffix |
| TimeFormat.FormatMidnightExample | src/components/PillBox/AddMedication/ReviewStep.tsx:44-48 | "00:30" shows as "12:30 AM" |
| ReviewStep.DayAbbreviation | src/components/PillBox/AddMedication/ReviewStep.tsx:27-28 | the three-letter name of a weekday 0..6; `undefined` (joined as "") outside |
| ReviewStep.DayAbbreviationList | src/components/PillBox/AddMedication/ReviewStep.tsx:28 | one abbreviation per day, in order |
| ReviewStep.ScheduleDescriptionCases | src/components/PillBox/AddMedication/ReviewStep.tsx:22-36 | "Every day"; "As needed"; the days-on/off sentence; "No days selected" for no days; otherwise the joined abbreviations |
| ReviewStep.ScheduleDescription | src/components/PillBox/AddMedication/ReviewStep.tsx:22-36 | `getScheduleDescription`: never empty, "No days selected" standing in for an empty day list |
| ReviewStep.OptionalNumberText | src/components/PillBox/AddMedication/ReviewStep.tsx:30 | a number in the template literal: never empty, and "undefined" exactly for an absent number |
| ReviewStep.ScheduleDescriptionListsDays | src/components/PillBox/AddMedication/ReviewStep.tsx:28 | every chosen weekday's abbreviation appears, in order, at its offset |
| ReviewStep.FrameLabel | src/components/PillBox/AddMedication/ReviewStep.tsx:54-55 | a kind absent from the table shows its wire name; never empty |
| ReviewStep.FrameLabelOfListed | src/components/PillBox/AddMedication/ReviewStep.tsx:54-55 | a kind listed in the table shows the label of its first entry, or its wire name when that label is empty |
| ReviewStep.FormatTimes | src/components/PillBox/AddMedication/ReviewStep.tsx:42-49 | one converted time per time |
| ReviewStep.FormatTimesAt | src/components/PillBox/AddMedication/ReviewStep.tsx:42-49 | entry i is the conversion of time i |
| ReviewStep.FrameLabels | src/components/PillBox/AddMedication/ReviewStep.tsx:52-56 | one label per frame, in order |
| ReviewStep.TimeDescriptionListsTimes | src/components/PillBox/AddMedication/ReviewStep.tsx:41-50 | in specific mode, every time's conversion appears, in order, at its offset |
| ReviewStep.TimeDescriptionListsFrames | src/components/PillBox/AddMedication/ReviewStep.tsx:51-57 | in time-frame mode, every frame's label appears, in order, at its offset |
| ReviewStep.TimesCompleteDescribed | src/components/PillBox/AddMedication/ReviewStep.tsx:38-59 | as-needed shows "When needed" and is complete; a non-empty description implies the row is complete |
| ReviewStep.TimeDescription | src/components/PillBox/AddMedication/ReviewStep.tsx:38-59 | `getTimeDescription`: outside as-needed, empty exactly when the list the mode reads (times or frames) is empty |
| ReviewStep.TimesComplete | src/components/PillBox/AddMedication/ReviewStep.tsx:150-154 | the Times flag is false exactly when the schedule is not as-needed and both the time list and the frame list are empty, whatever the mode |
| ReviewStep.TimesCompleteWithoutDescription | src/components/PillBox/AddMedication/ReviewStep.tsx:150-154 | the flag ignores the mode: time-frame mode with no frames but a time is complete with an empty description |
| ReviewStep.ShownValue | src/components/PillBox/AddMedication/ReviewStep.tsx:194 | the value, or, when it is empty, the three characters U+00E2 U+20AC U+201D that the mis-encoded em dash literal of the page shows; never empty |
| ReviewStep.StrengthChips | src/components/PillBox/AddMedication/ReviewStep.tsx:20 | the chips are the labels save stores |
| ReviewStep.Summary | src/components/PillBox/AddMedication/ReviewStep.tsx:116-169 | seven rows, plus End date exactly when there is a non-empty end date; each row's title, value and completeness: Dosing and Schedule always complete, Start date the formatted date or "Not set" and complete iff set, End date the formatted end date |
| ReviewStep.StrengthsRowComplete | src/components/PillBox/AddMedication/ReviewStep.tsx:132 | the Strengths row is complete exactly when some value has a non-whitespace character |
| ReviewStep.IncompleteTimesShowDash | src/components/PillBox/AddMedication/ReviewStep.tsx:150-154 | an incomplete Times row shows the empty-value mark (the mis-encoded em dash) |
| ReviewStep.PreviewName | src/components/PillBox/AddMedication/ReviewStep.tsx:92 | the name, or "Medication Name" when it is empty |
| MedicationReviewStep.ColorStyle | src/components/PillBox/AddMedication/MedicationReviewStep.tsx:21 | a listed colour's own classes; otherwise blue's |
| MedicationReviewStep.PillColorsStyled | src/components/PillBox/AddMedication/MedicationReviewStep.tsx:9-18 | every colour the colour step offers has its own entry |
| MedicationReviewStep.ColorLabel | src/components/PillBox/AddMedication/MedicationReviewStep.tsx:96 | the first character upper-cased and the rest unchanged; the length kept |
| MedicationReviewStep.ColorLabelIdempotent | src/components/PillBox/AddMedication/MedicationReviewStep.tsx:96 | capitalising twice is capitalising once |
| MedicationReviewStep.PillColorLabels | src/components/PillBox/AddMedication/MedicationReviewStep.tsx:96 | every offered colour's row label equals the colour step's label |
| MedicationReviewStep.ColorLabelOf | src/components/PillBox/AddMedication/MedicationReviewStep.tsx:96 | one offered colour name against its label |
| MedicationReviewStep.FilledEntries | src/components/PillBox/AddMedication/MedicationReviewStep.tsx:56 | `filter(s => s.value)`: exactly the entries with a non-empty value, whitespace-only values included; their order comes from FilledEntriesAppend |
| MedicationReviewStep.FilledEntriesAppend | src/components/PillBox/AddMedication/MedicationReviewStep.tsx:56 | the filter distributes over concatenation, so the entries kept stay in their order |
| MedicationReviewStep.Chips | src/components/PillBox/AddMedication/MedicationReviewStep.tsx:55-64 | one chip per entry with a non-empty value: chip i is the untrimmed value-and-unit label of the i-th such entry, and no chip is empty |
| MedicationReviewStep.Items | src/components/PillBox/AddMedication/MedicationReviewStep.tsx:76-98 | the four rows with their values and completeness flags as computed on screen |
| MedicationReviewStep.ItemsCompleteIffValue | src/components/PillBox/AddMedication/MedicationReviewStep.tsx:76-98 | the Name, Strengths and Color rows are complete exactly when they show a value |
| MedicationReviewStep.SavedStrengthsShown | src/components/PillBox/AddMedication/MedicationReviewStep.tsx:55-64 | the label of every strength the save transform keeps is one of the chips |
| MedicationReviewStep.SavedAreFilteredChips | src/components/PillBox/AddMedication/MedicationReviewStep.tsx:55-57 | the entries save keeps are the chips' entries with the whitespace-only ones dropped, in the same order |
| MedicationReviewStep.WhitespaceChipShownButDropped | src/components/PillBox/AddMedication/MedicationReviewStep.tsx:86-93 | a whitespace-only value shows the chip " mg" and a complete row, yet save drops it and Strength cannot proceed |
| MedicationReviewStep.FormRowIgnoresCustomForm | src/components/PillBox/AddMedication/MedicationReviewStep.tsx:81-85 | "Other" with the custom text absent or empty (as the wizard starts) shows as a complete "Other" row, although the Form step would not proceed |
| MedicationReviewStep.FormRowIsSavedForm | src/components/PillBox/AddMedication/MedicationReviewStep.tsx:22-24 | the Form row shows the form that save stores |
| MedicationReviewStep.PassedStepsAllComplete | src/components/PillBox/AddMedication/MedicationReviewStep.tsx:76-98 | after every step before Review has passed, all four rows are complete |
| IndexPage.SelectDosageOf | src/pages/Index.tsx:46-52 | the same dosage again clears the choice, any other dosage sets it; nothing else changes |
| IndexPage.HasSelection | src/pages/Index.tsx:69 | a truthy `selectedDosage`: no choice and the empty string are both falsy |
| IndexPage.IsPending | src/pages/Index.tsx:69 | a medicine is pending exactly when the Log button would change it |
| IndexPage.SelectDosage | src/pages/Index.tsx:43-56 | only the medicines with that id change, each as SelectDosageOf says |
| IndexPage.SelectDosageTwice | src/pages/Index.tsx:43-56 | two clicks on a chip give the list back when no other dosage was chosen |
| IndexPage.LogOne | src/pages/Index.tsx:60-64 | taken afterwards exactly when taken before or a dosage is chosen; nothing else changes |
| IndexPage.LogTaken | src/pages/Index.tsx:58-67 | every medicine is logged in place, in order |
| IndexPage.Pending | src/pages/Index.tsx:69 | exactly the chosen-but-untaken medicines; order and the Log button's count come from PendingAppend |
| IndexPage.PendingAppend | src/pages/Index.tsx:69 | the filter distributes over concatenation: pending medicines stay in list order and their number adds up over the parts |
| IndexPage.TakenCount | src/pages/Index.tsx:70 | at most the total, and equal to it exactly when every medicine is taken; one for a single taken medicine, zero for an untaken one |
| IndexPage.TakenCountAppend | src/pages/Index.tsx:70 | the count adds up over the parts of a list, so with the one-medicine case it is the number of taken medicines |
| IndexPage.ByTime | src/pages/Index.tsx:74-76 | exactly the medicines of that time of day; their order comes from ByTimeAppend |
| IndexPage.ByTimeAppend | src/pages/Index.tsx:74-76 | the filter distributes over concatenation, so each section lists its medicines in list order |
| IndexPage.TakenCountByTimeOfSection | src/pages/Index.tsx:78-80 | a section's count is the taken count of its own list, so never above its size |
| IndexPage.TakenCountByTime | src/pages/Index.tsx:78-80 | a section never counts more taken medicines than the whole page |
| IndexPage.SectionsPartition | src/pages/Index.tsx:74-80 | the three sections' sizes and taken counts add up to the page totals |
| IndexPage.SelectDosageKeepsTaken | src/pages/Index.tsx:43-56 | choosing a dosage leaves the taken count unchanged |
| IndexPage.LogTakenEffect | src/pages/Index.tsx:58-70 | logging adds exactly the pending medicines to the count, leaves none pending, and a second log does nothing |
| IndexPage.AllDone | src/pages/Index.tsx:117 | the banner shows exactly when every medicine is taken |
| IndexPage.LogButtonVisible | src/pages/Index.tsx:185 | the Log button shows exactly when some medicine is pending |
| IndexPage.LogAllChosenFinishes | src/pages/Index.tsx:58-67 | once every medicine has a dosage, one log finishes the day |
| IndexPage.Greeting | src/pages/Index.tsx:83-88 | morning before 12, afternoon before 17, evening after |
| IndexPage.Checklist.constructor | src/pages/Index.tsx:39-40 | the page starts with the given list and date |
| IndexPage.Checklist.SelectDosageClick | src/pages/Index.tsx:43-56 | the list becomes SelectDosage of the old list, and the taken count is unchanged |
| IndexPage.Checklist.LogTakenClick | src/pages/Index.tsx:58-67 | the list becomes LogTaken of the old list, the count grows by the pending number, and nothing is left pending |
| IndexPage.Checklist.SelectDate | src/pages/Index.tsx:39 | only the selected date changes |
| HistoryFilters.ToggleMedication | src/components/History/HistoryFilters.tsx:35-41 | flips one medication's membership, appends an absent one, and leaves the time list alone |
| HistoryFilters.ToggleTimeOfDay | src/components/History/HistoryFilters.tsx:43-49 | flips one time's membership, appends an absent one, and leaves the medication list alone |
| HistoryFilters.HasActiveFilters | src/components/History/HistoryFilters.tsx:33 | active exactly when either list is non-empty |
| HistoryFilters.ToggleTwice | src/components/History/HistoryFilters.tsx:35-49 | two clicks restore the filters' members, and the exact filters when the option was not chosen |
| HistoryFilters.TogglesCommute | src/components/History/HistoryFilters.tsx:35-49 | a medication click and a time click commute |
| HistoryFilters.ChoosingActivates | src/components/History/HistoryFilters.tsx:136 | choosing an option makes the filters active, so Clear shows |
| LowStockWarning.Message | src/components/PillBox/LowStockWarning.tsx:9-23 | nothing for no names; "X is running low" for one; the comma list, "and", and "are running low" for several |
| LowStockWarning.MessageContainsName | src/components/PillBox/LowStockWarning.tsx:20-22 | every name appears unchanged at its offset |
| LowStockWarning.MessageKeepsOrder | src/components/PillBox/LowStockWarning.tsx:22 | names appear in input order, separated |
| LowStockWarning.MessageEnding | src/components/PillBox/LowStockWarning.tsx:20-22 | singular ending for one name, plural for several |
| PillBoxPage.LowStockMeds | src/pages/PillBox.tsx:63-65 | exactly the names of the low-stock medications |
| PillBoxPage.LowStockMedsAppend | src/pages/PillBox.tsx:63-65 | names keep list order |
| PillBoxPage.DeleteById | src/pages/PillBox.tsx:67-69 | exactly the medications with other ids survive |
| PillBoxPage.DeleteByIdAppend | src/pages/PillBox.tsx:67-69 | survivors keep their order |
| PillBoxPage.DeleteByIdAbsent | src/pages/PillBox.tsx:67-69 | deleting an absent id changes nothing |
| PillBoxPage.DeleteByIdTwice | src/pages/PillBox.tsx:67-69 | deleting is idempotent |
| PillBoxPage.WithId | src/pages/PillBox.tsx:81-84 | the draft's fields with the fresh id |
| PillBoxPage.SaveMedication | src/pages/PillBox.tsx:80-86 | the old list followed by the new medication |
| PillBoxPage.SaveThenDelete | src/pages/PillBox.tsx:63-86 | a saved wizard record leaves the banner unchanged, and deleting its fresh id restores the list |
| PillBoxPage.BannerShowsIffLowStock | src/pages/PillBox.tsx:63-65 | the banner shows exactly when some medication is low |
| PillBoxPage.CountLabel | src/pages/PillBox.tsx:96 | the number then "medication", plural exactly when the number is not 1 |
| PillBoxPage.ShowEmptyState | src/pages/PillBox.tsx:118 | the empty state shows exactly for an empty list |
| PillBoxPage.PillBox.constructor | src/pages/PillBox.tsx:60-61 | the given list, with the flow closed |
| PillBoxPage.PillBox.Delete | src/pages/PillBox.tsx:67-69 | the list becomes DeleteById of the old one |
| PillBoxPage.PillBox.OpenAddFlow | src/pages/PillBox.tsx:76-78 | the flow opens and the list is kept |
| PillBoxPage.PillBox.SetAddFlowOpen | src/pages/PillBox.tsx:150 | the flow's reported state is taken over |
| PillBoxPage.PillBox.Save | src/pages/PillBox.tsx:80-86 | appends the record with its fresh id; a record not low on stock leaves the banner unchanged |
| MedicationDetail.TakenLogs | src/pages/MedicationDetail.tsx:283 | at most the total; the total exactly when all were taken; zero exactly when none was |
| MedicationDetail.TakenLogsAppend | src/pages/MedicationDetail.tsx:283 | the count adds up over the parts of a list, so with the one-log case it is the number of taken logs |
| MedicationDetail.AdherenceRate | src/pages/MedicationDetail.tsx:75-77 | no value exactly for an empty log; otherwise the rounded percentage of taken logs |
| MedicationDetail.MultipleAtLeast | src/pages/MedicationDetail.tsx:75-77 | a positive multiple of a positive number is at least that number |
| MedicationDetail.DivideExactly | src/pages/MedicationDetail.tsx:75-77 | a quotient and remainder fix the integer division |
| MedicationDetail.RoundedPercentNearest | src/pages/MedicationDetail.tsx:75-77 | `Math.round`: within half a point of the exact percentage, halves rounded up |
| MedicationDetail.RoundedPercent | src/pages/MedicationDetail.tsx:75-77 | `Math.round(100 * part / whole)` on exact fractions: no taken log gives 0; RoundedPercentNearest and RoundedPercentRange give the rest |
| MedicationDetail.RoundedPercentRange | src/pages/MedicationDetail.tsx:75-77 | a part no larger than the whole rounds to at most 100 |
| MedicationDetail.RoundedPercentExtremes | src/pages/MedicationDetail.tsx:75-77 | all taken gives 100; none gives 0 |
| MedicationDetail.AdherenceRateMeaning | src/pages/MedicationDetail.tsx:75-77 | the rate lies in 0..100, is the nearest percentage, is 100 when all were taken, and is 0 when none was |
| MedicationDetail.AdherenceRateSample | src/pages/MedicationDetail.tsx:41-47 | four taken out of five gives 80 |
| MedicationDetail.AdherenceBand | src/pages/MedicationDetail.tsx:274-276 | good at 80 and above; warning from 50 to 79; otherwise destructive |
| MedicationDetail.AdherenceBandMonotone | src/pages/MedicationDetail.tsx:274-276 | a higher rate never gives a worse band |
| MedicationDetail.StockUnitWord | src/pages/MedicationDetail.tsx:178 | "tablets" exactly for tablet forms, otherwise "units" |
| MedicationDetail.DoseUnitWord | src/pages/MedicationDetail.tsx:223 | "tablet" exactly for tablet forms, otherwise "dose" |
| MedicationDetail.UnitWordsAgree | src/pages/MedicationDetail.tsx:178-223 | the stock word is the plural of the dose word exactly for tablet forms |
| MedicationDetail.TabletFormIgnoresCase | src/pages/MedicationDetail.tsx:178 | letter case makes no difference to the tablet test |
| MedicationDetail.IsTabletForm | src/pages/MedicationDetail.tsx:178 | `form.toLowerCase().includes("tablet")`: needs at least six characters, and "Tablet" passes |
| MedicationDetail.DosingLabel | src/pages/MedicationDetail.tsx:226 | "Fixed dose" exactly for fixed dosing, "Flexible dosing" exactly for flexible dosing |
| MedicationDetail.ReplaceFirst | src/pages/MedicationDetail.tsx:238 | `replace` with a character pattern replaces only the first occurrence, keeping the length |
| MedicationDetail.ScheduleTypeLabel | src/pages/MedicationDetail.tsx:238 | the label has the wire name's length |
| MedicationDetail.ScheduleTypeName | src/pages/MedicationDetail.tsx:238 | the wire name of a schedule type: never empty, with an underscore exactly for specific_days and as_needed |
| MedicationDetail.ScheduleTypeLabels | src/pages/MedicationDetail.tsx:238 | every schedule type reads as plain words: "everyday", "specific days", "cyclical", "as needed" |
| MedicationDetail.ReplaceUnderscore | src/pages/MedicationDetail.tsx:238 | two words joined by one underscore come out joined by a space |
| MedicationDetail.RecentLogs | src/pages/MedicationDetail.tsx:305 | `slice(0, 5)`: the first logs in order, all of them up to five, else exactly five |
| MedicationDetail.StatusLabel | src/pages/MedicationDetail.tsx:333 | "Taken" exactly for taken logs; every other status, missed included, reads "Skipped" |
| SwipeableCard.Clamp | src/components/PillBox/SwipeableCard.tsx:27 | `Math.max(lo, Math.min(hi, v))`: the value when in range, otherwise the nearer bound |
| SwipeableCard.Snap | src/components/PillBox/SwipeableCard.tsx:35-39 | open (100) exactly past 60, otherwise shut |
| SwipeableCard.SnapIdempotent | src/components/PillBox/SwipeableCard.tsx:35-39 | snapping a resting card leaves it where it is |
| SwipeableCard.GestureOutcome | src/components/PillBox/SwipeableCard.tsx:21-40 | a gesture opens the card exactly when it moved more than 60 pixels left |
| SwipeableCard.Card.constructor | src/components/PillBox/SwipeableCard.tsx:11-13 | shut, not dragging |
| SwipeableCard.Card.DeleteAreaVisible | src/components/PillBox/SwipeableCard.tsx:54 | the delete area shows exactly when the card is slid at all |
| SwipeableCard.Card.TouchStart | src/components/PillBox/SwipeableCard.tsx:16-19 | records the start point and starts dragging |
| SwipeableCard.Card.TouchMove | src/components/PillBox/SwipeableCard.tsx:21-29 | ignored unless dragging; otherwise the offset is the clamped leftward distance |
| SwipeableCard.Card.TouchEnd | src/components/PillBox/SwipeableCard.tsx:31-40 | stops dragging and snaps the offset open or shut |
| SwipeableCard.Card.Delete | src/components/PillBox/SwipeableCard.tsx:42-45 | shuts the card and asks once for the deletion |
| SwipeableCard.SwipeGesture | src/components/PillBox/SwipeableCard.tsx:16-40 | a full swipe on a fresh card ends open exactly when it went more than 60 pixels left, with no deletion asked |
| WeekCalendar.DayOfWeek | src/components/WeekCalendar.tsx:26 | a weekday number from 0 to 6 |
| WeekCalendar.StartOfWeek | src/components/WeekCalendar.tsx:17 | the Sunday on or before the day |
| WeekCalendar.StartOfWeekSame | src/components/WeekCalendar.tsx:17 | every day of a week has the same start, and its weekday is its offset |
| WeekCalendar.WeekDays | src/components/WeekCalendar.tsx:21-32 | seven cells from the week start, each marked today and selected exactly on those days |
| WeekCalendar.Cell | src/components/WeekCalendar.tsx:23-30 | a cell's date, its weekday name and its two marks |
| WeekCalendar.WeekDaysConsecutive | src/components/WeekCalendar.tsx:21-32 | consecutive days from a Sunday, named "Sun" to "Sat" |
| WeekCalendar.WeekShift | src/components/WeekCalendar.tsx:18 | whole weeks keep the weekday |
| WeekCalendar.WeekDaysMarks | src/components/WeekCalendar.tsx:28-29 | at most one cell is today and one selected; the current week marks today in its weekday column, other weeks never |
| WeekCalendar.ShowTodayButton | src/components/WeekCalendar.tsx:37 | hidden exactly on the current week with today selected |
| WeekCalendar.HiddenButtonShowsToday | src/components/WeekCalendar.tsx:37-48 | with the button hidden, the strip shows today selected |
| WeekCalendar.Calendar.constructor | src/components/WeekCalendar.tsx:13-14 | today fixed, current week |
| WeekCalendar.Calendar.Days | src/components/WeekCalendar.tsx:21-32 | seven cells from the shown week's start |
| WeekCalendar.Calendar.PrevWeek | src/components/WeekCalendar.tsx:34-38 | one week back; the button flag is reported from the new offset |
| WeekCalendar.Calendar.NextWeek | src/components/WeekCalendar.tsx:40-44 | one week on; the button flag is reported from the new offset |
| WeekCalendar.Calendar.SelectDate | src/components/WeekCalendar.tsx:46-49 | the day becomes selected; the flag is reported from the new date |

## Left out

- Rendering, styling, icons, animation and the Dialog/Popover/Calendar widgets are not modelled. Only the values and flags they receive are.
- Randomness, time and locale are parameters:
  - `crypto.randomUUID()` is a `freshId` argument;
  - `new Date()` is an hour (`Greeting`) or a day number (`WeekCalendar`);
  - date-fns and `toLocaleDateString` formatting is a function argument (`ReviewStep.Summary`), or not modelled at all (`dayNumber`, `monthYear` and `formatDate` in `WeekCalendar.tsx` and `MedicationDetail.tsx`).
- React batching and stale closures are not modelled. Each handler runs on the state current when it is called. A state update that a parent owns is applied at once: the wizard's `onOpenChange`, the filter and selection callbacks, and the calendar's `onSelectDate`.
- Handlers that only navigate or log are not modelled. These are `handleMedicationClick` and `handleBack` in `PillBox.tsx` and `MedicationDetail.tsx`, and the TODO data fetch.
- The Clear button's callback is not modelled: it belongs to the history page, which is not part of this model. Only the flag that shows the button is.
- `calculateTotalDose` in `DosingTypeStep.tsx` and `progressPercentage` in `Index.tsx` are floating-point arithmetic. They are not modelled.
- `AdherenceCalendar.tsx`, the colour and shape steps, and the other presentational components are not part of this model.
- The tables `TIME_FRAMES` and `BACKGROUND_COLORS` live in a `types.ts` that is not part of this model. They are parameters (`ReviewStep.FrameLabel`, `MedicationTypes.BackgroundHex`).
- Text.ParseInt: integers are unbounded. JavaScript's loss of precision above 2^53, and results such as `Infinity`, are not modelled.
- Text.StringLeq: it compares Unicode code points, where JavaScript compares UTF-16 code units. The two agree on every character the screens sort, which are digits.
- Text.ToLower and Text.ToUpperChar: only ASCII letters are case-mapped. Other scripts' case mappings are not modelled.
- MedicationTypes.ScheduleType: it has only the four backend values. The "Not set" default branch of `getScheduleDescription` (`ReviewStep.tsx:33-34`) cannot be reached in the model.
- ScheduleStep.UpdateSpecificTime: it requires an index within the list. The screen only passes indices of listed times. Assigning past the end of a JavaScript array, which would grow it with holes, is not modelled.
- MedicationStrengthStep.RemoveStrengthNeverEmpties: it assumes unique ids, which fresh UUIDs give. With duplicate ids the filter could empty the list.
- MedicationReviewStep.ColorStyle: it looks a colour up in an ordinary map. Names such as "toString", which the JavaScript object lookup would find on the prototype, are not modelled.
- MedicationDetail.AdherenceRate: it computes `Math.round(taken / total * 100)` on exact fractions. Floating-point rounding of the quotient is not modelled, and an empty log (NaN in the source) is `None`.
- SwipeableCard.Card: `clientX` is an integer. Fractional touch coordinates are not modelled.
- WeekCalendar.Calendar.todayButton: it records the last value reported to the parent. Its initial `false` stands for "not reported yet".
- IndexPage.Medicine: `dosages`, `name` and `color` are carried but not inspected. The handlers do not read them.
