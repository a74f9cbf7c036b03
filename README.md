# Wywóz Odpadów — a Dafny model

Wywóz Odpadów is a Home Assistant integration for the Warsaw city service "Warszawa 19115".
It fetches the waste-collection schedule of one address point. It publishes the schedule as
a calendar, whose entries are the pickups, and as a sensor, whose state is the number of days
until the next pickup.

This project models the integration's logic in Dafny and proves properties of the model.
The logic covered is:

- the update coordinator: the check on the fetched payload, and the normalisation of the
  payload into sorted future events and a per-fraction table (`_process_data`, with its two
  loops and the stable sort);
- the derivation of a translation key from a Polish fraction name (lower-casing, removing
  parenthesised groups, collapsing separators into `_`, trimming `_`), and the lookup with
  its fallback;
- the static tables: request parameters, update intervals, and the fraction-to-waste-type
  mapping;
- the calendar's next event, its inclusive date-range listing and its uid format;
- the sensor's minimum over the fractions' `days_until`;
- the device-name fallback chain that both entities share;
- the setup wizard's rules: response-shape classification, postal-code validation, the
  address options, selection checks, error codes, and the conversion from days to seconds.
  The wizard's state is a class whose step methods update its fields.

Modules, one per file:

| module | file | models |
|---|---|---|
| `Wrappers` | wrappers.dfy | `Option`, `Result` |
| `Text` | text.dfy | `str.strip`, `str.lower`, `int()` and `str()` on integers (ASCII) |
| `Dates` | dates.dfy | `date`, `toordinal`, `isoformat`, `strptime(…, "%Y-%m-%d")` |
| `Const` | const.dfy | const.py |
| `FractionNames` | fraction_names.dfy | `_fraction_name_to_snake_case`, `_translate_fraction_name` |
| `Events` | events.dfy | the event records and `events.sort` (stable) |
| `Schedule` | schedule.dfy | `_process_data` as functions, and its properties |
| `Coordinator` | coordinator.dfy | the payload check and `_process_data` as loops |
| `Device` | device.dfy | `device_info` of the calendar and of the sensor |
| `Calendar` | calendar.dfy | `event`, `async_get_events` |
| `Sensor` | sensor.dfy | `native_value` |
| `SetupWizard` | config_flow.dfy | `search_addresses`, `validate_input`, `ConfigFlow` |

`Schedule.Normalize` states what `_process_data` returns. `Coordinator.ProcessData` computes
the same result with the source's loops and is proved equal to it. All the other properties
of the snapshot are proved about `Normalize`. In the same way, the calendar's range loop is
proved against `Calendar.RangeEvents` and the sensor's loop against `Sensor.IsMinDays`.

The clock `dt_util.now().date()` becomes the parameter `today`. The translation table, which
the coordinator loads from Home Assistant, becomes the parameter `table`. HTTP replies are
values: a status and a body. A body is one of three things: JSON parsed by the library, text
sent with the wrong content type together with the outcome of `json.loads` on it, or text no
parser accepts.

## Model

| member | source | states |
|---|---|---|
| Coordinator.CheckPayload | custom_components/wywoz_odpadow/coordinator.py:142-144 | succeeds exactly on a non-empty list, and then returns its entries; any other value fails with "Invalid response format from API" |
| Coordinator.CheckPayloadAsWritten | custom_components/wywoz_odpadow/coordinator.py:142-175 | succeeds on the same inputs as the intended check; a failure's message is "Unexpected error: " followed by the check's message |
| Coordinator.CheckPayloadMessageIsWrapped | custom_components/wywoz_odpadow/coordinator.py:173-175 | for an empty list, the message callers see differs from "Invalid response format from API" |
| Coordinator.ProcessData | custom_components/wywoz_odpadow/coordinator.py:177-262 | the method with the source's loops returns exactly `Schedule.Normalize` of the payload, today and the table |
| Coordinator.CollectPickups | custom_components/wywoz_odpadow/coordinator.py:200-239 | the first loop's events are the upcoming events of the classified items in item order; its dict and insertion order are the first-occurrence table of the kept items |
| Coordinator.AddNextDates | custom_components/wywoz_odpadow/coordinator.py:245-255 | the second loop, visiting the ids in dict order, gives every fraction its next date and days until it, and changes nothing else |
| Coordinator.Refresh | custom_components/wywoz_odpadow/coordinator.py:142-150 | fails exactly on an empty or non-list payload, with the intended message "Invalid response format from API" of the corrected `CheckPayload` rather than the wrapped one callers see (see Findings); otherwise its value is the normalised payload |
| Schedule.Normalize | custom_components/wywoz_odpadow/coordinator.py:177-262 | the snapshot `_process_data` returns; address and district are set exactly for a non-empty payload; its events and fractions are specified by the Schedule lemmas below |
| Coordinator.CheckedPayloadIsNotEmpty | custom_components/wywoz_odpadow/coordinator.py:179-185 | after the check, the early return is never taken: address and district are always set |
| Schedule.NormalizeEmpty | custom_components/wywoz_odpadow/coordinator.py:179-185 | an empty payload gives no address, no district, no events and no fractions |
| Schedule.NormalizeReadsFirstEntry | custom_components/wywoz_odpadow/coordinator.py:188-192 | only the first entry is read; address and district are its `adres` and `dzielnicy`, or "" when the key is absent |
| Schedule.Classify | custom_components/wywoz_odpadow/coordinator.py:201-216 | a kept item has a non-empty fraction id |
| Schedule.SkipReasons | custom_components/wywoz_odpadow/coordinator.py:206-213 | an item is skipped if and only if its date text is empty, its fraction id is empty, or its date does not parse |
| Schedule.SkippedItemAddsNoEvent | custom_components/wywoz_odpadow/coordinator.py:206-213 | removing a skipped item anywhere in the list leaves the events unchanged |
| Schedule.SkippedItemAddsNoFraction | custom_components/wywoz_odpadow/coordinator.py:206-213 | removing a skipped item anywhere in the list leaves the fraction table and its order unchanged |
| Schedule.UpcomingConcat | custom_components/wywoz_odpadow/coordinator.py:200-229 | the events of two item lists joined are the events of the first list followed by those of the second |
| Schedule.UpcomingHasItem | custom_components/wywoz_odpadow/coordinator.py:219-229 | every kept item dated today or later yields its event |
| Schedule.UpcomingSource | custom_components/wywoz_odpadow/coordinator.py:219-229 | every event comes from a kept item dated today or later |
| Schedule.EventShape | custom_components/wywoz_odpadow/coordinator.py:219-229 | every event starts today or later, ends when it starts, has summary equal to its fraction name, and has description "Wywóz: " + summary |
| Schedule.EventOfItem | custom_components/wywoz_odpadow/coordinator.py:200-229 | every event carries its item's parsed date, its non-empty fraction id and its translated name |
| Schedule.SnapshotEvents | custom_components/wywoz_odpadow/coordinator.py:242 | the published events are a permutation of the kept events, sorted by start, and the events of any one day keep their input order |
| Schedule.SnapshotEventsAreUpcoming | custom_components/wywoz_odpadow/coordinator.py:219-242 | the published events are sorted, and none starts before today |
| Schedule.FractionEvents | custom_components/wywoz_odpadow/coordinator.py:246-248 | an event is selected if and only if it is stored, has the fraction's id, and starts today or later |
| Schedule.TrackWellFormed | custom_components/wywoz_odpadow/coordinator.py:231-239 | the table's keys are exactly its order's ids, without repeats; each entry's id is its key; next date and days are unset |
| Schedule.TrackKeys | custom_components/wywoz_odpadow/coordinator.py:232-239 | an id is in the table if and only if some kept item has it, including items in the past |
| Schedule.TrackFirstOccurrence | custom_components/wywoz_odpadow/coordinator.py:232-239 | an id's entry is built from its first kept item: the translated name, and the waste type of the raw name |
| Schedule.FirstFractionEventIsEarliest | custom_components/wywoz_odpadow/coordinator.py:246-251 | in a sorted list, a fraction's first selected event is the earliest of its events |
| Schedule.NextDateOf | custom_components/wywoz_odpadow/coordinator.py:245-255 | next date and days are set together, exactly when the fraction has an event; they are the ISO date of its earliest event and the whole days to it, which are at least 0 |
| Schedule.SnapshotFractions | custom_components/wywoz_odpadow/coordinator.py:231-255 | one fraction per distinct id of the kept items; name and type from the first occurrence; next date and days as in NextDateOf, and the next date parses back to the event's day |
| Events.Insert | custom_components/wywoz_odpadow/coordinator.py:242 | inserting an event adds exactly that event to the multiset |
| Events.SortByStart | custom_components/wywoz_odpadow/coordinator.py:242 | `events.sort` by start date keeps the length; SortSorted, SortPermutes and SortStable state that it sorts, permutes and is stable |
| Events.InsertSorted | custom_components/wywoz_odpadow/coordinator.py:242 | inserting into a sorted list keeps it sorted |
| Events.SortSorted | custom_components/wywoz_odpadow/coordinator.py:242 | the sort's result is non-decreasing by start date |
| Events.SortPermutes | custom_components/wywoz_odpadow/coordinator.py:242 | the sort's result has the same events, each as often as before |
| Events.OnDateInsert | custom_components/wywoz_odpadow/coordinator.py:242 | an inserted event goes ahead of the other events of its day |
| Events.SortStable | custom_components/wywoz_odpadow/coordinator.py:242 | the events of any one day keep their input order |
| FractionNames.FractionKey | custom_components/wywoz_odpadow/coordinator.py:282-295 | the key holds only `a-z`, `0-9` and `_`, with no leading, trailing or doubled `_` |
| FractionNames.StripParenGroups | custom_components/wywoz_odpadow/coordinator.py:288 | text without `(` is unchanged and the result is never longer; StripTrailingGroup gives a trailing group as one `_` |
| FractionNames.ReplaceNonKeyRuns | custom_components/wywoz_odpadow/coordinator.py:290 | text starting with a key character keeps it; ReplaceNonKeyRunsShape, ReplaceNonKeyRunsFixes and ReplaceJoined specify the rest |
| FractionNames.SqueezeUnderscores | custom_components/wywoz_odpadow/coordinator.py:292 | text without `_` is unchanged and the result is never longer; SqueezeIsIdentity shows the step changes nothing after line 290 |
| FractionNames.ReplaceNonKeyRunsShape | custom_components/wywoz_odpadow/coordinator.py:290 | after the substitution the text holds only key characters and `_`, never two `_` in a row |
| FractionNames.ReplaceNonKeyRunsFixes | custom_components/wywoz_odpadow/coordinator.py:290 | text already of that shape is left unchanged |
| FractionNames.ReplaceNonKeyRunsConcat | custom_components/wywoz_odpadow/coordinator.py:290 | after a key character the substitution works piece by piece |
| FractionNames.ReplaceJoined | custom_components/wywoz_odpadow/coordinator.py:290 | words joined by runs of non-key characters (such as " ", ", " or " - ") become the words joined by one `_` each |
| FractionNames.SqueezeIsIdentity | custom_components/wywoz_odpadow/coordinator.py:292 | collapsing `_` runs changes nothing once no `_` is doubled |
| FractionNames.KeyOfTrimmed | custom_components/wywoz_odpadow/coordinator.py:294 | trimming `_` from such text leaves a key |
| FractionNames.StripTrailingGroup | custom_components/wywoz_odpadow/coordinator.py:288 | a trailing " (…)" group becomes one `_` |
| FractionNames.FractionKeyOfKey | custom_components/wywoz_odpadow/coordinator.py:282-295 | a key derives to itself |
| FractionNames.FractionKeyIdempotent | custom_components/wywoz_odpadow/coordinator.py:282-295 | deriving the key of a key changes nothing |
| FractionNames.KeyOfWords | custom_components/wywoz_odpadow/coordinator.py:282-295 | a name whose lower-case form is words joined by runs of non-key characters derives to the words joined by single `_` |
| FractionNames.KeyOfWordsAndGroup | custom_components/wywoz_odpadow/coordinator.py:282-295 | the same holds when a parenthesised group follows; the group is dropped |
| FractionNames.GlassKey | custom_components/wywoz_odpadow/coordinator.py:282-295 | "Opakowania ze szkła" derives to "opakowania_ze_szk_a" |
| FractionNames.BioKey | custom_components/wywoz_odpadow/coordinator.py:282-295 | "Odpady kuchenne ulegające biodegradacji (bio)" derives to "odpady_kuchenne_ulegaj_ce_biodegradacji" |
| FractionNames.Translate | custom_components/wywoz_odpadow/coordinator.py:297-303 | the table's entry for the name's key if there is one, otherwise the raw name unchanged |
| FractionNames.TranslateWithoutTable | custom_components/wywoz_odpadow/coordinator.py:302 | with an empty table every name translates to itself |
| Const.PortletParams | custom_components/wywoz_odpadow/const.py:7-24 | the six portlet keys, with `p_p_resource_id` set to the given resource |
| Const.ApiParamsDifferOnlyInResource | custom_components/wywoz_odpadow/const.py:7-24 | both parameter sets have the same keys and agree everywhere except `p_p_resource_id`, which is `ajaxResource` and `autocompleteResource` |
| Const.DefaultIntervalIsOneDay | custom_components/wywoz_odpadow/const.py:26-29 | the default interval is the default number of days times 86400, and that number is within 1..7 |
| Const.WasteTypeOf | custom_components/wywoz_odpadow/coordinator.py:236 | a mapped name gets its table value, which is one of the five waste types; the type is "custom" if and only if the raw name is not in the mapping |
| Const.MappingValuesAreWasteTypes | custom_components/wywoz_odpadow/const.py:37-45 | every mapping value is one of waste, paper, recycle, organic, others; "custom" is none of them |
| Const.WasteTypeIsCaseSensitive | custom_components/wywoz_odpadow/const.py:37-45 | a label that differs from a key only in case maps to "custom" |
| Device.FallbackName | custom_components/wywoz_odpadow/calendar.py:64-65 | the fallback name is never empty |
| Device.DeviceName | custom_components/wywoz_odpadow/calendar.py:53-71 | the non-empty data address, else the non-empty entry title, else the fallback; never empty |
| Device.Info | custom_components/wywoz_odpadow/sensor.py:56-74 | identifier (domain, entry id), manufacturer "Warszawa 19115", and the same name chain as the calendar |
| Device.RefreshedDeviceName | custom_components/wywoz_odpadow/calendar.py:58-59 | after a refresh with a non-empty `adres`, the device name is that address |
| Device.FallbackNamesDiffer | custom_components/wywoz_odpadow/calendar.py:64-65 | different address points get different fallback names |
| Calendar.UniqueId | custom_components/wywoz_odpadow/calendar.py:44 | the entry id followed by `_calendar` |
| Calendar.EntryUids | custom_components/wywoz_odpadow/calendar.py:96 | the uids of one entry's calendar start with the entry id, and equal uids mean equal fraction ids and dates |
| Calendar.Uid | custom_components/wywoz_odpadow/calendar.py:96 | the uid's length is the lengths of unique id and fraction id plus 12 |
| Calendar.UidEndsInDate | custom_components/wywoz_odpadow/calendar.py:137 | the uid starts with the unique id, and its last ten characters parse back to the event's date |
| Calendar.UidParts | custom_components/wywoz_odpadow/calendar.py:96 | the uid is the unique id, `_`, the fraction id, `_`, then the ISO date |
| Calendar.UidsDiffer | custom_components/wywoz_odpadow/calendar.py:137 | under one unique id, equal uids mean equal fraction ids and equal dates |
| Calendar.NextEvent | custom_components/wywoz_odpadow/calendar.py:73-97 | none exactly when there is no data or no event; otherwise built from the first stored event |
| Calendar.NextEventIsEarliest | custom_components/wywoz_odpadow/calendar.py:83-97 | after a refresh, the next event starts today or later, ends when it starts, and no stored event starts earlier |
| Calendar.GetEvents | custom_components/wywoz_odpadow/calendar.py:99-141 | the loop's result is empty without data; otherwise it is the stored events in range, in stored order |
| Calendar.RangeEvents | custom_components/wywoz_odpadow/calendar.py:113-141 | never more events than stored; RangeEventsSource, RangeEventsComplete and RangeEventsSorted state that it is exactly the in-range events in stored order |
| Calendar.RangeEventsConcat | custom_components/wywoz_odpadow/calendar.py:113-139 | the listing of two event lists joined is the listing of the first followed by that of the second |
| Calendar.RangeEventsSource | custom_components/wywoz_odpadow/calendar.py:123 | every listed event comes from a stored event inside the inclusive range |
| Calendar.RangeEventsComplete | custom_components/wywoz_odpadow/calendar.py:123 | every stored event inside the inclusive range is listed |
| Calendar.RangeEventsSorted | custom_components/wywoz_odpadow/calendar.py:113-141 | sorted stored events give a sorted listing |
| Calendar.EmptyRange | custom_components/wywoz_odpadow/calendar.py:123 | a range that ends before it starts lists nothing |
| Sensor.NativeValue | custom_components/wywoz_odpadow/sensor.py:76-94 | none without data; otherwise none exactly when no fraction has days, and else the minimum: some fraction's days, and no fraction's days are smaller |
| Sensor.MinDaysUnique | custom_components/wywoz_odpadow/sensor.py:86-94 | the minimum is determined by the fractions |
| Sensor.MinDaysStep | custom_components/wywoz_odpadow/sensor.py:88-92 | one step of the loop keeps the accumulator the minimum of the fractions seen |
| Sensor.RefreshedValueNonNegative | custom_components/wywoz_odpadow/sensor.py:86-94 | after a refresh the state, when defined, is at least 0 |
| Dates.DaysBetweenNonNegative | custom_components/wywoz_odpadow/coordinator.py:252 | from a date to a later or equal one the day difference is at least 0, and it is 0 exactly for the same date |
| Dates.OrdinalOrder | custom_components/wywoz_odpadow/coordinator.py:219 | date comparison agrees with the comparison of ordinals |
| Dates.IsoFormat | custom_components/wywoz_odpadow/coordinator.py:254 | ten characters, with `-` at positions 4 and 7 |
| Dates.ParseDate | custom_components/wywoz_odpadow/coordinator.py:210 | an accepted text has 8 to 10 characters, four year digits and `-` at position 4, and the year is their value; ParseIsoFormat and ParseDateUnpadded state what is accepted |
| Dates.ParseIsoFormat | custom_components/wywoz_odpadow/coordinator.py:210 | parsing a date's ISO text gives the date back |
| Dates.ParseDateUnpadded | custom_components/wywoz_odpadow/coordinator.py:209-213 | unpadded month and day are accepted; an invalid day or trailing text is rejected |
| Text.StripIdempotent | custom_components/wywoz_odpadow/config_flow.py:246 | stripping twice is stripping once |
| Text.StripCharsShape | custom_components/wywoz_odpadow/config_flow.py:59 | the stripped text neither starts nor ends with a stripped character, and the input is only stripped characters around it |
| Text.Lower | custom_components/wywoz_odpadow/coordinator.py:286 | same length; each ASCII capital becomes the lower-case letter at the same alphabet position, and every other character is kept |
| Text.ParseIntOfIntToString | custom_components/wywoz_odpadow/config_flow.py:309 | `int(str(i)) == i` |
| SetupWizard.ReadJson | custom_components/wywoz_odpadow/config_flow.py:115-166 | a body `response.json()` parsed is read as that value; any other parse error fails with the invalid-JSON message; text with the wrong content type that does not look like JSON fails as HTML, and if it looks like JSON the manual parse decides |
| SetupWizard.NonJsonTextIsNotParsed | custom_components/wywoz_odpadow/config_flow.py:129-154 | for text that does not look like JSON the outcome does not depend on the manual parse, and it fails |
| SetupWizard.LooksLikeJsonSkipsWhitespace | custom_components/wywoz_odpadow/config_flow.py:59-60 | after leading whitespace, text looks like JSON if and only if it starts with `[` or `{` |
| SetupWizard.RemoveDashes | custom_components/wywoz_odpadow/config_flow.py:37 | the result holds no `-` and is not longer than the input |
| SetupWizard.RemoveDashesConcat | custom_components/wywoz_odpadow/config_flow.py:37 | dashes are removed piece by piece, so the kept characters keep their order |
| SetupWizard.RemoveDashesCounts | custom_components/wywoz_odpadow/config_flow.py:37 | every character other than `-` is kept, as often as it occurs |
| SetupWizard.RemoveDashesWithoutDash | custom_components/wywoz_odpadow/config_flow.py:37 | text without a dash is unchanged |
| SetupWizard.SearchParams | custom_components/wywoz_odpadow/config_flow.py:32-40 | the autocomplete parameters, plus the name filter if and only if the postal code is not empty |
| SetupWizard.StoredPostalCodeFilter | custom_components/wywoz_odpadow/config_flow.py:35-40 | a valid postal code's filter is its five digits |
| SetupWizard.ScheduleParams | custom_components/wywoz_odpadow/config_flow.py:84-87 | the schedule parameters plus the address point, whose text parses back to the id |
| SetupWizard.SearchAddresses | custom_components/wywoz_odpadow/config_flow.py:30-76 | a non-empty result comes only from a 200 reply whose body reads as that list |
| SetupWizard.SearchFailuresAreEmpty | custom_components/wywoz_odpadow/config_flow.py:50-76 | a transport error, a non-200 status, an unreadable body or a non-list value all give `[]` |
| SetupWizard.SearchReturnsList | custom_components/wywoz_odpadow/config_flow.py:67-72 | a 200 reply whose body reads as a list returns that list |
| SetupWizard.ValidatePostalCode | custom_components/wywoz_odpadow/config_flow.py:245-259 | accepts exactly the stripped codes of the form two digits, `-`, three digits, and returns the stripped code; "required" exactly when the stripped input is empty, otherwise "invalid_format" |
| SetupWizard.StoredPostalCodeRevalidates | custom_components/wywoz_odpadow/config_flow.py:246-258 | a stored code validates again to itself |
| SetupWizard.OptionsById | custom_components/wywoz_odpadow/config_flow.py:282-284 | one option per `addressPointId` of the results, each keyed by its own id |
| SetupWizard.OptionsLastWins | custom_components/wywoz_odpadow/config_flow.py:282-284 | for a repeated id, the last result wins |
| SetupWizard.Labels | custom_components/wywoz_odpadow/config_flow.py:285-288 | the dropdown has the same keys as the options, each labelled `fullName (id)` |
| SetupWizard.LabelEndsWithId | custom_components/wywoz_odpadow/config_flow.py:286 | every label ends in " (id)" |
| SetupWizard.ErrorCode | custom_components/wywoz_odpadow/config_flow.py:313-329 | cannot_connect exactly for CannotConnect; no_schedule_found exactly for InvalidData("no_schedule_found"); unknown exactly for other exceptions; otherwise invalid_data |
| SetupWizard.ClassifySchedule | custom_components/wywoz_odpadow/config_flow.py:170-195 | an empty or non-list value fails with "Invalid response format from API"; an empty `harmonogramy` fails with "no_schedule_found"; it succeeds if and only if the value is a non-empty list whose first entry has items |
| SetupWizard.AddressNameDefault | custom_components/wywoz_odpadow/config_flow.py:190-195 | a non-empty list whose first entry has items is accepted; its title is `adres`, and "Address <id>" only when the key is absent |
| SetupWizard.ValidateInput | custom_components/wywoz_odpadow/config_flow.py:79-225 | a transport error or a non-200 status is CannotConnect; for a 200 reply, a body that cannot be read fails with InvalidData and its message, and a readable body gives the schedule's classification |
| SetupWizard.ValidationErrorCodes | custom_components/wywoz_odpadow/config_flow.py:197-225 | validation never reports unknown; it reports no_schedule_found exactly for a readable list whose first entry has no items |
| SetupWizard.CheckSelection | custom_components/wywoz_odpadow/config_flow.py:294-302 | missing exactly when the stripped input is empty; unknown exactly when it is not an option; otherwise the stripped id, which is an option |
| SetupWizard.Submit | custom_components/wywoz_odpadow/config_flow.py:303-340 | an id that does not parse fails with "unknown"; a failed validation fails with its error code; a successful one gives the entry with the validated title, the integer id and days × 86400 seconds |
| SetupWizard.SubmittedInterval | custom_components/wywoz_odpadow/config_flow.py:307-311 | the stored interval is a whole number of days from one day to a week: 86400..604800 seconds |
| SetupWizard.WholeDays | custom_components/wywoz_odpadow/config_flow.py:345-347 | days 1..7 convert to whole-day seconds in 86400..604800 and back |
| SetupWizard.ConfigFlow.constructor | custom_components/wywoz_odpadow/config_flow.py:233-237 | an empty postal code, no options and no labels |
| SetupWizard.ConfigFlow.StepUser | custom_components/wywoz_odpadow/config_flow.py:239-269 | no input shows the form unchanged; an invalid code shows its error and changes nothing; a valid code is stored, the options are loaded as in LoadOptions, and the address form is shown without a selection, with "no_addresses" when a first search finds nothing |
| SetupWizard.ConfigFlow.LoadOptions | custom_components/wywoz_odpadow/config_flow.py:277-291 | searches only when there are no labels yet; then the options are keyed by id from the results, or left as they were with "no_addresses" when there are none; labels stay equal to the options |
| SetupWizard.ConfigFlow.StepAddress | custom_components/wywoz_odpadow/config_flow.py:271-355 | the options as in LoadOptions; with no input, the form with the search's errors; "required" or "invalid_selection" added for the selection; for a selected id, the entry when the submission succeeds and otherwise the form with its error code |

## Left out

- HTTP and transport are left out. The aiohttp sessions, timeouts and exception classes become reply values. A transport error is one constructor of the reply.
- `json.loads` and `response.json()` are library calls. Whether they succeed, and what they return, are inputs.
- The coordinator's fetch and JSON reading (coordinator.py:67-138) are not modelled. Only the check at lines 142-144, the final handler's wrapping, and `_process_data` are.
- Text is treated as ASCII. `str.lower` folds only `A`-`Z`. `strip()` and `\s` use the ASCII whitespace set, and `\d` means `0`-`9`. The Unicode behaviour of these is not modelled.
- JSON values are records with optional fields. An absent key is `None`. JSON `null` and fields of the wrong JSON type are not modelled.
- `addressPointId` in search results is modelled as a string. The selection is compared with it as text.
- A missing `addressPointId` or `fullName` (a `KeyError`) is not modelled.
- Time zones, `datetime.combine` and `dt_util.as_local` are left out. Calendar events carry dates.
- `extra_state_attributes` (sensor.py:96-107) is left out. It uses floating-point division and `round`.
- `_load_fraction_translations` (coordinator.py:264-280) is Home Assistant I/O. The table it loads is a parameter. A failed load is the empty table, which `FractionNames.TranslateWithoutTable` covers.
- The clock `dt_util.now()` is the parameter `today`.
- Logging is left out. URL assembly is left out too; only the parameter maps are modelled.
- The voluptuous schemas, `async_show_form`, `async_create_entry` and the host lifecycle are left out. The schema's range for the update interval, 1..7 days, is a precondition of `SetupWizard.Submit` and of the address step.
- SetupWizard.Submit: `int(update_interval_days)` cannot fail here, because the schema has already coerced the value to an integer in 1..7.
- FractionNames.BioKey: the name is written as three concatenated literals, which denote the same string as the full name.
- Python's dict insertion order is the `order` sequence next to the map. The fractions are visited in it.
- Schedule.Classify: its own ensures state only that a kept item has a non-empty id. `SkipReasons` and `EventOfItem` state the rest.
- Calendar.Uid: its own ensures state only the length. `UidParts` and `UidsDiffer` state the format.
- Line 210 parses dates with `strptime`. The model follows the code rather than a "YYYY-MM-DD only" reading: unpadded month and day are accepted (`Dates.ParseDateUnpadded`).
- The same applies to the bio example. The code keeps no trace of "(bio)" and turns `ą` into `_`, and the model follows it.

## Findings

| source | as written | input that shows it | evidently intended | confidence | as-written member | corrected member |
|---|---|---|---|---|---|---|
| custom_components/wywoz_odpadow/coordinator.py:142-175 | the `UpdateFailed` raised by the format check is inside the `try`, so the final `except Exception` catches it and raises a new one prefixed with "Unexpected error: " | an empty JSON list: the message is "Unexpected error: Invalid response format from API" | the check's own message, passed on unchanged, as `validate_input` does for `InvalidData` at config_flow.py:211-213 | medium, not executed | Coordinator.CheckPayloadAsWritten, Coordinator.CheckPayloadMessageIsWrapped | Coordinator.CheckPayload, Coordinator.Refresh |

The same wrapping happens in `validate_input`. There, a `CannotConnect` raised for a non-200
status (config_flow.py:108) is caught by `except Exception` at lines 223-225. It is re-raised
with the prefix. `SetupWizard.ValidateInput` keeps that message as written. The error code
shown to the user is `cannot_connect` either way.
