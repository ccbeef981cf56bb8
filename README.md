# Donde voy — a verified model of the feria finder's logic

The application lists the street fairs ("ferias") of Buenos Aires on a map. It has a
search panel, category chips, favourites, reminders and a location tracker. The data
comes from the city's GeoJSON dataset and is synchronised with a Supabase table.

This project models, in Dafny, the logic under that interface:

- the GeoJSON normaliser. It translates day codes, splits and renames product lists,
  reads the opening hours out of free text with a regular expression, and classifies
  each fair by keywords.
- the store of the application context. It holds four conjunctive search filters, an
  optional sort by distance, the distance annotation and the favourites.
- the two mappers between a feria and a database row, and the tally of the bulk sync.
  The sync inserts each feria and falls back to an update on a duplicate key.
- the reminder list: add with validation, delete, and the periodic check that fires
  the reminders due within a minute.
- the search panel's local filter edits, and the category chips with their counts.
- the location hook: a five-minute notice throttle, the success and error callbacks,
  and a one-minute "location lost" timer.

Each module is one file:

- `wrappers.dfy`: `Option`.
- `text.dfy`: the JavaScript string operations used, namely `toLowerCase`, `includes`,
  `trim`, `split`, `join`, `padStart` and integer `toString`.
- `lists.dfy`: `filter`, `map`, subsequences, and toggling a value in a list.
- `types.dfy`: the shared records.
- The rest follow the application's source files: `data_processor.dfy`,
  `app_context.dfy`, `ferias_service.dfy`, `reminder_system.dfy`, `search_panel.dfy`,
  `category_filter.dfy` and `geolocation.dfy`.

Pure code is modelled as functions with lemmas. State that the source updates is
modelled as classes:

- `AppProvider`, `ReminderPanel`, `Panel` and `LocationTracker` have methods that
  update their fields.
- The filter effect narrows a sequence step by step, as the source does.
- The sort works in place on an array.
- The sync is a loop over the ferias.

Some things outside the program become parameters:

- the database replies to insert and update are functions of the iteration index and row;
- `Date` parsing is `parse: string -> Option<int>` (milliseconds, `None` for an invalid date);
- the current time is an integer `now`;
- the great-circle distance is a function;
- new reminder ids are given by the caller.

## Model

| member | source | states |
|---|---|---|
| Text.LowerChar | src/contexts/AppContext.tsx:63 | a lowered character is never upper case; ASCII and Latin-1 capitals move to their small letter, every other character is unchanged |
| Text.LowerIdempotent | src/contexts/AppContext.tsx:63 | lowering a lowered string changes nothing |
| Text.LowerKeepsContains | src/contexts/AppContext.tsx:75-76 | a substring stays a substring after both strings are lowered |
| Text.TrimSpec | src/utils/dataProcessor.ts:54 | `trim` returns a slice whose cut-off ends are all white space and which neither starts nor ends with white space; it is empty exactly when the input is blank |
| Text.JoinSplit | src/utils/dataProcessor.ts:53 | joining the fields of a split with the separator gives the original string back |
| Text.SplitJoin | src/utils/dataProcessor.ts:53 | splitting a join of separator-free parts gives the parts back |
| Text.JoinContainsPart | src/utils/dataProcessor.ts:90 | every part occurs in the joined text, so a keyword of one product is found in the joined product text |
| Text.PadStart2 | src/utils/dataProcessor.ts:81 | strings of two or more characters are unchanged; a shorter one is left-padded with zeros to length two and ends with the original |
| Text.NatToStringValue | src/utils/dataProcessor.ts:115 | reading the decimal digits of `n` back gives `n` |
| Text.IntToStringInjective | src/utils/dataProcessor.ts:115 | distinct integers have distinct decimal strings |
| Lists.FilterIsSubsequence | src/contexts/AppContext.tsx:59-88 | a filtered list is a subsequence of its input |
| Lists.ToggleSpec | src/contexts/AppContext.tsx:98-104 | toggling an absent value appends it at the end; toggling a present value removes every occurrence; every other value keeps its membership |
| Lists.ToggleTwiceRestores | src/contexts/AppContext.tsx:98-104 | toggling an absent value twice restores the list |
| DataProcessor.ConvertDiaSpec | src/utils/dataProcessor.ts:35-46 | each of the seven upper-case codes maps to its Spanish day name; any other input is returned unchanged; a result is a day name exactly when the input is a code or already a day name; converting twice changes nothing |
| DataProcessor.NormalizeProducto | src/utils/dataProcessor.ts:56-72 | a name in the synonym table becomes one of the table's values; any other name passes through; a non-empty name never becomes empty |
| DataProcessor.ExtractProductos | src/utils/dataProcessor.ts:49-74 | a missing or empty product string gives exactly `["Productos varios"]`; no entry of any result is empty |
| DataProcessor.ExtractProductosByField | src/utils/dataProcessor.ts:52-73 | a non-empty product string gives its comma-separated fields in order, each trimmed and renamed, with the blank ones dropped |
| DataProcessor.ProductChainByField | src/utils/dataProcessor.ts:52-73 | the source's chain of map(trim), filter(non-empty) and map(rename) equals the per-field definition |
| DataProcessor.ProductFieldsEntries | src/utils/dataProcessor.ts:52-73 | every entry produced is non-empty and is either a synonym-table value or a trimmed name the table does not contain |
| DataProcessor.SeparatorsOnlyGiveNoProducts | src/utils/dataProcessor.ts:50-55 | the non-empty input `" , "` gives the empty list, not the default |
| DataProcessor.HourGroupEnd | src/utils/dataProcessor.ts:78 | the one- or two-digit hour group starting at a position ends at the first colon; it is found whenever such a group exists |
| DataProcessor.MatchPrefixSound | src/utils/dataProcessor.ts:78 | a match at the start of a text has well-formed groups, and `de H:MM a H:MM` rendered from them is a prefix of the text |
| DataProcessor.MatchPrefixComplete | src/utils/dataProcessor.ts:78 | if well-formed groups render to a prefix of the text, the match at the start finds exactly those groups |
| DataProcessor.MatchAtIffPattern | src/utils/dataProcessor.ts:78 | the regex matches at a position exactly when some groups render there |
| DataProcessor.FirstMatchFrom | src/utils/dataProcessor.ts:78 | the search returns the leftmost matching position from its start, or one past the end when none matches |
| DataProcessor.FindHourRange | src/utils/dataProcessor.ts:78 | a found range has one- or two-digit hours and two-digit minutes |
| DataProcessor.FindHourRangeSound | src/utils/dataProcessor.ts:78 | a found range occurs in the text at the first matching position |
| DataProcessor.FindHourRangeLeftmost | src/utils/dataProcessor.ts:78 | wherever the pattern occurs, a range is found at that position or an earlier one |
| DataProcessor.FormatTimeSpec | src/utils/dataProcessor.ts:81-82 | a bound is `DD:DD`; it keeps the minutes verbatim and the hour digits right-aligned, and it has the hour's value |
| DataProcessor.ExtractHorarios | src/utils/dataProcessor.ts:77-86 | both bounds are always `DD:DD`; with no match the result is exactly 08:00 to 14:00; on a match each bound shows its matched hour and minutes |
| DataProcessor.ExtractHorariosLeading | src/utils/dataProcessor.ts:77-84 | text that begins with `de H:MM a H:MM` gives those two bounds, zero-padded |
| DataProcessor.ExtractHorariosExample | src/utils/dataProcessor.ts:77-85 | `"de 8:00 a 14:00"` gives 08:00 to 14:00 |
| DataProcessor.DetermineTipo | src/utils/dataProcessor.ts:89-106 | the result is one of the four kinds; a fruit or vegetable keyword always gives Mercado; each other kind results exactly when its keyword is present and no earlier keyword group is |
| DataProcessor.FruitProductGivesMercado | src/utils/dataProcessor.ts:89-94 | one product that mentions fruit, vegetables or hortícolas makes the fair a Mercado |
| DataProcessor.Descripcion | src/utils/dataProcessor.ts:124 | every description starts with the fair's name followed by ` - ` |
| DataProcessor.DescripcionRemarks | src/utils/dataProcessor.ts:124 | truthy remarks extend the description of the same feature without remarks by ` - ` and the remarks, which can be read back from its end; empty or missing remarks leave that description unchanged |
| DataProcessor.ProcessFeature | src/utils/dataProcessor.ts:109-127 | latitude and longitude are swapped out of `[lng, lat]`; the id is the decimal id; the name and address are copied; the days are `[convertDia(dia)]`; products, kind and hours come from their extractors; the telephone and distance are unset |
| DataProcessor.ProcessGeoJSONData | src/utils/dataProcessor.ts:108-128 | one feria per feature, in feature order |
| DataProcessor.ProcessedIdsDistinct | src/utils/dataProcessor.ts:115 | features with distinct numeric ids give ferias with distinct string ids |
| DataProcessor.SampleFeature | src/utils/dataProcessor.ts:108-122 | a Monday feature selling `Frutihorticolas` becomes a Lunes Mercado offering `Frutas y Verduras` |
| AppContext.FilterFerias | src/contexts/AppContext.tsx:59-88 | the result is no longer than the list, and every feria in it passes every active filter |
| AppContext.FilterFeriasMembership | src/contexts/AppContext.tsx:61-88 | a feria is kept exactly when it is in the list and passes each filter that is set: `tipo` as a case-insensitive substring of the kind, `dia` as an exact day, `direccion` as a case-insensitive substring of the name or address, and products as a case-insensitive substring of one of its products |
| AppContext.TipoStage | src/contexts/AppContext.tsx:61-65 | a set `tipo` filters on the lowered kind, and an unset one changes nothing |
| AppContext.DiaStage | src/contexts/AppContext.tsx:67-71 | a set `dia` keeps the ferias open that day, and an unset one changes nothing |
| AppContext.DireccionStage | src/contexts/AppContext.tsx:73-78 | a set `direccion` keeps the ferias whose name or address contains it, and an unset one changes nothing |
| AppContext.ProductosStage | src/contexts/AppContext.tsx:80-88 | a non-empty product selection keeps the ferias offering one selected product, and an empty or unset selection changes nothing |
| AppContext.AllStagesAreMatches | src/contexts/AppContext.tsx:59-88 | the four filters applied in turn equal the single conjunctive filter |
| AppContext.NarrowByFilters | src/contexts/AppContext.tsx:59-88 | narrowing the list one filter at a time gives exactly the ferias that match all filters, in their order |
| AppContext.FilterFeriasSubsequence | src/contexts/AppContext.tsx:59-88 | filtering only drops ferias and keeps the relative order |
| AppContext.UnsetFiltersKeepAll | src/contexts/AppContext.tsx:59-88 | when no filter is set, or only an empty product list is, every feria is kept in order |
| AppContext.NoFiltersKeepAll | src/contexts/AppContext.tsx:59-88 | the empty filter object keeps the whole list |
| AppContext.EmptyProductSelection | src/contexts/AppContext.tsx:80 | an empty product list filters like an unset one |
| AppContext.ProductFilterRule | src/contexts/AppContext.tsx:80-88 | with only products selected, a feria is kept exactly when some selected product is, ignoring case, a substring of some product of the feria |
| AppContext.WithDistances | src/contexts/AppContext.tsx:44-52 | the annotation keeps the count and order, sets each feria's distance from the location, and changes no other field |
| AppContext.WithDistancesIdempotent | src/contexts/AppContext.tsx:44-52 | annotating twice from the same location gives the same list |
| AppContext.SortByDistance | src/contexts/AppContext.tsx:91-93 | the array ends up sorted ascending by distance, with a missing distance read as 0, and is a permutation of its old contents |
| AppContext.AppProvider.constructor | src/contexts/AppContext.tsx:22-26 | the store starts with every feria shown, and with no location, no favourites and no filters |
| AppContext.AppProvider.RecomputeFiltered | src/contexts/AppContext.tsx:58-96 | without a location the shown list equals the filtered list; with one it is the filtered list sorted by distance, as a permutation |
| AppContext.AppProvider.SetSearchFilters | src/contexts/AppContext.tsx:58-96 | new filters are stored and the shown list is recomputed from them |
| AppContext.AppProvider.SetUserLocation | src/contexts/AppContext.tsx:42-55 | a known location re-annotates every feria with its distance; clearing the location keeps the old distances; the shown list is recomputed |
| AppContext.AppProvider.ToggleFavorite | src/contexts/AppContext.tsx:98-106 | the favourites are toggled; `isFavorite` flips for that id and stays the same for every other id |
| FeriasService.NullIfFalsy | src/integrations/supabase/feriasService.ts:28-29 | the result is `null` exactly when the value is absent or empty, and otherwise the value itself |
| FeriasService.FeriaToSupabase | src/integrations/supabase/feriasService.ts:18-33 | the description and telephone are null exactly when falsy, and otherwise copied; barrio, comuna and observaciones are always null |
| FeriasService.SupabaseToFeria | src/integrations/supabase/feriasService.ts:36-49 | the distance is always unset |
| FeriasService.FeriaRoundTrip | src/integrations/supabase/feriasService.ts:18-49 | the trip to a row and back keeps every field except the distance, which is dropped, and a falsy description or telephone, which becomes unset |
| FeriasService.FeriaRoundTripExact | src/integrations/supabase/feriasService.ts:18-49 | a feria without a distance and without empty optional strings comes back unchanged |
| FeriasService.RowRoundTrip | src/integrations/supabase/feriasService.ts:18-49 | a row the mapper could have produced comes back unchanged after the trip through a feria |
| FeriasService.RowsAreStable | src/integrations/supabase/feriasService.ts:18-49 | mapping a feria to a row, back, and to a row again gives the first row |
| FeriasService.TallyTotal | src/integrations/supabase/feriasService.ts:215-255 | each processed feria adds to exactly one of the success and error counts |
| FeriasService.UpdateIndices | src/integrations/supabase/feriasService.ts:228-234 | the ferias an update is sent for are exactly those whose insert failed with the duplicate-key code, each once, in increasing order |
| FeriasService.UpdateTargets | src/integrations/supabase/feriasService.ts:228-234 | one id per update, in order: the k-th id is the id of the k-th feria whose insert failed with a duplicate key |
| FeriasService.AllInsertsSucceed | src/integrations/supabase/feriasService.ts:228-248 | when every insert succeeds, every feria counts as a success and no update is sent |
| FeriasService.AllInsertsThrow | src/integrations/supabase/feriasService.ts:249-252 | when every insert throws, every feria counts as an error |
| FeriasService.SyncFeriasFromGeoJSON | src/integrations/supabase/feriasService.ts:215-256 | success and error counts follow the per-feria rule and add up to the number of ferias; an update is sent exactly after a duplicate-key insert error |
| ReminderSystem.ReminderMessage | src/components/ReminderSystem.tsx:87 | a non-empty custom text is used as given; otherwise the message is `Recordatorio: <nombre> estará disponible pronto`; it is never empty |
| ReminderSystem.NotificationDelay | src/components/ReminderSystem.tsx:101-104 | the delay exists exactly when the date parses, and it is the reminder time minus now |
| ReminderSystem.Fired | src/components/ReminderSystem.tsx:147-154 | a reminder fires exactly when it is in the list, active, and due in more than 0 and at most 60000 ms |
| ReminderSystem.DeactivateId | src/components/ReminderSystem.tsx:158-160 | the same reminders in the same order; those with the id become inactive and every other reminder is unchanged |
| ReminderSystem.SavedAfterCheckAsWritten | src/components/ReminderSystem.tsx:149-163 | with nothing firing the saved list is unchanged; otherwise it has the same length, and a reminder is active afterwards exactly when it was active and does not have the last fired id; no other field changes |
| ReminderSystem.SavedAfterCheckSpec | src/components/ReminderSystem.tsx:145-164 | after the corrected check no reminder is still due; a reminder is active exactly when it was active and not due; nothing but `active` changes |
| ReminderSystem.AsWrittenAgreesOnSingleFiring | src/components/ReminderSystem.tsx:149-163 | when at most one reminder fires, the check as written saves the same list as the corrected check |
| ReminderSystem.CheckAsWrittenKeepsFirstActive | src/components/ReminderSystem.tsx:149-163 | with two due reminders, the check as written leaves the first active, and the corrected check does not |
| ReminderSystem.RemoveById | src/components/ReminderSystem.tsx:167 | exactly the reminders with other ids remain |
| ReminderSystem.RemoveByIdKeepsOrder | src/components/ReminderSystem.tsx:167 | the remaining reminders keep their order |
| ReminderSystem.ReminderPanel.constructor | src/components/ReminderSystem.tsx:18-23 | no reminders, an empty hidden form and nothing scheduled |
| ReminderSystem.ReminderPanel.ResetForm | src/components/ReminderSystem.tsx:172-178 | the four form fields are empty and the form is hidden |
| ReminderSystem.ReminderPanel.ScheduleNotification | src/components/ReminderSystem.tsx:101-111 | a timer is armed exactly when the delay is strictly positive |
| ReminderSystem.ReminderPanel.AddReminder | src/components/ReminderSystem.tsx:65-99 | a missing field, an unknown feria or a time not in the future is rejected with nothing changed; otherwise exactly one active reminder for the selected feria, with its name and message, is appended at the end, scheduled when in the future, and the form is reset |
| ReminderSystem.ReminderPanel.DeleteReminder | src/components/ReminderSystem.tsx:166-170 | every reminder with the id is removed, and the others stay in order |
| ReminderSystem.ReminderPanel.CheckReminders | src/components/ReminderSystem.tsx:145-164 | the due active reminders fire in list order, and the list keeps them all inactive (the corrected check) |
| SearchPanel.FieldValue | src/components/SearchPanel.tsx:73 | an empty field value is stored as unset, and any other value as itself |
| SearchPanel.Shown | src/components/SearchPanel.tsx:70 | a field shows its stored value, or the empty string when unset |
| SearchPanel.FieldRoundTrip | src/components/SearchPanel.tsx:70-74 | a field shows what was typed; storing what a field shows changes nothing |
| SearchPanel.ToggleProduct | src/components/SearchPanel.tsx:31-40 | the new product list is never stored as an empty list |
| SearchPanel.ToggleProductSpec | src/components/SearchPanel.tsx:32-35 | an absent product is appended at the end; a present one is removed with all its occurrences; every other product keeps its membership |
| SearchPanel.ToggleProductTwice | src/components/SearchPanel.tsx:31-40 | toggling an absent product twice restores the selection, except that an empty list becomes unset |
| SearchPanel.Panel.constructor | src/components/SearchPanel.tsx:18 | the local filters start as the store's filters |
| SearchPanel.Panel.HandleProductToggle | src/components/SearchPanel.tsx:31-41 | only the product list of the local filters changes, and it is toggled |
| SearchPanel.Panel.SetDireccion | src/components/SearchPanel.tsx:71-74 | only the address changes, and an empty one becomes unset |
| SearchPanel.Panel.SetTipo | src/components/SearchPanel.tsx:87-90 | only the kind changes, and an empty one becomes unset |
| SearchPanel.Panel.SetDia | src/components/SearchPanel.tsx:110-113 | only the day changes, and an empty one becomes unset |
| SearchPanel.Panel.HandleApplyFilters | src/components/SearchPanel.tsx:20-23 | the store takes the local filters and its shown list is brought up to date |
| SearchPanel.Panel.HandleClearFilters | src/components/SearchPanel.tsx:25-29 | the local and applied filters both become empty, and the shown list is brought up to date |
| CategoryFilter.MentionTestSpec | src/components/CategoryFilter.tsx:26-30 | the speciality callback throws exactly when `especialidad` is missing, or has no match while `etiquetas` is missing; otherwise it keeps a feria exactly when a speciality, tag or product mentions the category |
| CategoryFilter.CountMentions | src/components/CategoryFilter.tsx:26-30 | the filter throws exactly when the callback throws on some feria; otherwise the count is the number of ferias the callback keeps |
| CategoryFilter.CategoryCount | src/components/CategoryFilter.tsx:17-31 | the count fails exactly when a speciality chip meets a feria on which the callback throws; every count is at most the number of ferias |
| CategoryFilter.CategoryCountSpec | src/components/CategoryFilter.tsx:17-31 | `Todos` counts every feria; a main category reaches the number of ferias exactly when every feria has that category, and is zero exactly when none does; any other chip reaches the number of ferias exactly when the callback keeps every feria, and is zero exactly when it rejects every feria without throwing |
| CategoryFilter.MissingSpecialityThrows | src/components/CategoryFilter.tsx:26-27 | one feria without `especialidad` makes the `Orgánico` and `Vegano` counts throw, while `Todos` still counts every feria |
| CategoryFilter.MainCountsBound | src/components/CategoryFilter.tsx:21-23 | the three main-category counts never fail, and they add up to at most the number of ferias |
| CategoryFilter.HandleCategoryChange | src/components/CategoryFilter.tsx:33-38 | `Todos` unsets the category, any other chip sets it, and no other filter changes |
| CategoryFilter.TodosActive | src/components/CategoryFilter.tsx:47-48 | `Todos` is highlighted exactly when the category is unset, empty or `Todos` |
| CategoryFilter.AtMostOneActive | src/components/CategoryFilter.tsx:7-48 | no two chips are highlighted at once |
| CategoryFilter.ClickedChipIsActive | src/components/CategoryFilter.tsx:33-48 | after a chip is clicked, that chip and no other is highlighted |
| Geolocation.ShownTimes | src/hooks/useGeolocation.ts:13-25 | no more notices than position updates |
| Geolocation.ShownTimesAfter | src/hooks/useGeolocation.ts:15-18 | after the first update, the next notice comes more than five minutes after the last one |
| Geolocation.ShownTimesSpaced | src/hooks/useGeolocation.ts:13-25 | any two consecutive notices are more than five minutes apart |
| Geolocation.BurstShowsOnce | src/hooks/useGeolocation.ts:13-25 | updates within five minutes of a first notice show only that notice |
| Geolocation.QuietWindow | src/hooks/useGeolocation.ts:13-25 | updates within five minutes of the last notice show nothing |
| Geolocation.LocationTracker.constructor | src/hooks/useGeolocation.ts:7-11 | no location, no error, loading, and no notice or timer yet |
| Geolocation.LocationTracker.ShowLocationNotification | src/hooks/useGeolocation.ts:13-25 | a notice is shown exactly on the first call or after more than 300000 ms, and the last-notice time moves exactly when one is shown |
| Geolocation.LocationTracker.Mount | src/hooks/useGeolocation.ts:34-43 | without support the error is the fixed message, loading stops and no watch starts; otherwise watching starts with the first-location flag set |
| Geolocation.LocationTracker.OnPosition | src/hooks/useGeolocation.ts:44-62 | the position is stored, the error is cleared, loading stops and a pending lost timer is cleared; the notice is throttled and counts as first only for the first position; for any later updates, the notices `ShownTimes` picks from the old state are this call's notice followed by those it picks from the new state |
| Geolocation.LocationTracker.OnPositionError | src/hooks/useGeolocation.ts:63-74 | the message is stored and loading stops; the lost timer is armed only when none is held |
| Geolocation.LocationTracker.OnLostTimeout | src/hooks/useGeolocation.ts:69-72 | the warning is shown and the timer handle is cleared, so a later error can arm it again |
| Geolocation.LocationTracker.Unmount | src/hooks/useGeolocation.ts:82-87 | the watch stops and a pending timer is cancelled; the handle itself is not cleared |

## Left out

- Rendering, icons, maps, toasts and the browser Notification API are left out. A shown
  notice, an armed timer and a scheduled notification are recorded as events in a
  sequence field.
- `localStorage` persistence of favourites and reminders is left out. It only copies
  state to storage.
- The Supabase query methods (`getAllFerias`, `getFeriasByLocation`, `getFeriasByTipo`,
  `getFeriasByDia`, `searchFerias`, `insertFeria`, `updateFeria`, `deleteFeria`) are
  left out. They are thin wrappers over a client library. The sync sees the database
  only through its insert and update replies.
- File and fetch loading of the GeoJSON file is left out; it is I/O.
- The sync script and its console output are left out.
- `src/utils/distanceCalculator.ts` is not part of this model. The distance is a
  function parameter of the store.
- Floating point is not modelled. Coordinates and distances are reals, so NaN and
  rounding do not arise.
- `toLowerCase` is modelled only for ASCII and Latin-1 capitals. Full Unicode case
  mapping is not modelled.
- `trim` removes the JavaScript white-space set, character by character.
- `null` and `undefined` are both `None`.
- The day and synonym lookups in the source are plain objects. Their inherited
  prototype keys (such as `constructor`) are not modelled.
- `categoria` is kept in the search filters, because the category chips set it. The
  filter effect never reads it, which is as in the source. `horaApertura` is never read.
- `Date` parsing and `Date.now()` are parameters: `parse` and `now`. `addReminder` and
  `scheduleNotification` read the clock separately in the source; the model uses one
  instant for both.
- Reminder ids are given by the caller.
- The check of the reminders runs from `setInterval(checkReminders, 60000)`, which is
  registered once on mount. In React that callback keeps seeing the first render's
  empty list, so the interval is not modelled. `CheckReminders` is modelled as a call
  on the current list.
- `onClose` of the search panel and the `isOpen` early return are left out; they are
  presentational.
- The "location lost" timer's 60-second delay is not modelled. Timer firing is an
  event, `OnLostTimeout`, which may happen only while a timer is pending.
- AppContext.SortByDistance: does not state stability. The source's `Array.prototype.sort`
  is stable. The model promises only sortedness and being a permutation, and ties may
  come out in any order.
- ReminderSystem.SavedAfterCheckSpec: assumes distinct reminder ids. With duplicate ids,
  deactivating one id also deactivates its duplicates. The source makes ids from the
  clock, which gives no guarantee of uniqueness.
- DataProcessor.ProcessFeature: assumes the feature id is an integer. JavaScript's
  `toString` gives `"1.5"` or `"1e+21"` for a fractional or very large number; the model
  writes integer digits only.
- CategoryFilter.CategoryCount: the fair records the store starts from
  (src/data/feriasData.ts) have no `especialidad` or `etiquetas`, so on a non-empty list
  the `Orgánico` and `Vegano` counts throw while the chips render. The model reports
  that as `None` and does not model what React does with the exception.
- FeriasService.SyncFeriasFromGeoJSON: an exception raised inside the update is folded
  into the update's reply. It counts as an error, as the source's `catch` does.

## Findings

| source | as written | input that shows it | evidently intended | confidence | as-written member | corrected member |
|---|---|---|---|---|---|---|
| src/components/ReminderSystem.tsx:149-163 | each firing maps over the list as it was when the check began and saves that, so each save overwrites the previous one; only the last fired reminder ends up inactive | two active reminders with distinct ids, both due within the next 60 s: after the check the first one is still saved as active; it does not fire again, because at the next check, 60 s later, it is no longer in the future, but its card keeps the "Activo" badge instead of "Ejecutado" (src/components/ReminderSystem.tsx:331-336) and it stays active in storage. In the running app this is hidden, because the interval callback registered on mount sees only the first render's empty list (see "## Left out") | every fired reminder is saved as inactive | not executed | ReminderSystem.CheckAsWrittenKeepsFirstActive | ReminderSystem.SavedAfterCheckSpec |
