# go-misp adapter core, modelled in Dafny

The adapter is a Wazuh active-response program. It reads a file-integrity
alert, extracts the name of the file that was just added from the alert's
`full_log` line, and searches a MISP server for that name. It then reduces the
first matching MISP event to a small alert that goes back to Wazuh.

This project models the pure logic of `cmd/main.go`:

- `text.dfy` (`Text`): the two string primitives the extractor relies on.
  `ReplaceNewlines` is `strings.ReplaceAll(s, "\n", " ")`. `LastIndex` is
  `strings.LastIndex` with a one-character needle.
- `filename.dfy` (`FileName`): `extractFileName`, plus lemmas that describe
  exactly when it succeeds and what it returns.
- `misp.dfy` (`Misp`): the MISP records (`MispResult`, `MispResponse`,
  `MispEvent`, `MispObject`, `MispAttribute`). It also holds the three lookups
  `getMispObject`, `findValue` and `extractMispObjectInfo`.
- `wazuh.dfy` (`Wazuh`): `generateWazuhResponse`, the goroutine fan-in and the
  outbound alert.
- `wrappers.dfy` (`Wrappers`): `Option` and `Result`.

Modelling choices:

- Strings are `seq<char>`. Go indexes strings by byte, but `\`, `'` and the
  newline are ASCII. UTF-8 never uses an ASCII byte inside a multi-byte
  character, so cutting at these characters gives the same text in both views.
- `getMispObject` is given the event's object list, and `extractMispObjectInfo`
  the object's attribute list. These are the only fields either one reads.
- The `map[string]bool` filter becomes `Option<set<string>>`. `nil` is `None`.
  The source only checks whether a key is present (`_, ok := filter[k]`), so the
  boolean values are dropped.
- The Go error return becomes `Result<Alert, ProjectionError>`.
  `ProjectionError.Message` gives the exact error texts from lines 111 and 119.
- The outbound `map[string]any` is `map<string, Value>`. A `Value` is either a
  copied string field (`Str`) or an extracted relation-to-value map (`Fields`).
- The two goroutines become two pure calls to `ExtractMispObjectInfo`. The
  `select` loop becomes `Drain`, a fold over `arrivals`. `arrivals` is the order
  in which the two channels deliver. Each goroutine sends exactly once, so that
  order is a two-element sequence with one entry per channel (`OnePerChannel`).
  The scheduler chooses it, so the model takes it as a parameter, and
  `ResponseIndependentOfArrival` proves that the result does not depend on it.
- `generateWazuhResponse` reads `m.Response[0]` without checking it. Its only
  caller returns early when the list is empty (lines 284-287). The model
  therefore requires `|m.response| > 0`.

Three behaviours of the code worth knowing:

- `extractMispObjectInfo` keeps the *last* value of a repeated relation key,
  because it writes into a map in order. `findValue`, which the rest of the
  program does not call, keeps the first. `DuplicateRelationTieBreak` shows
  both.
- Extraction is not idempotent. An extracted name has no backslash, so
  extracting again returns `("", false)` (`ReExtractFindsNothing`).
- Success does not imply a non-empty name. A quote right after the last
  backslash gives `("", true)` (`EmptyNameAfterBackslash`), and the adapter
  then searches MISP for the empty string.

## Model

| member | source | states |
|---|---|---|
| `Text.ReplaceNewlines` | cmd/main.go:164 | The normalised line has the same length as the input. Each newline becomes a space and every other character is kept. No newline is left, and a line without newlines is unchanged. |
| `Text.LastIndex` | cmd/main.go:166-172 | The result is -1 or a position holding the character, and no later position holds it. So it is -1 exactly when the character does not occur. |
| `Text.LastIndexBefore` | cmd/main.go:172 | The backwards scan behind `LastIndex`. It returns the last occurrence among the first `n` characters, or -1. |
| `Text.ReplaceNewlinesAppend` | cmd/main.go:164 | Normalisation works character by character, so it distributes over concatenation. |
| `FileName.ExtractFileName` | cmd/main.go:162-180 | A failed extraction returns the empty name. A successful one returns a name with no backslash and no newline, shorter than the line. |
| `FileName.DelimitersFound` | cmd/main.go:164-178 | Suppose the normalised line has a backslash with no backslash after it, and a later quote with no quote after it. Then extraction succeeds and returns exactly the text strictly between them. |
| `FileName.FoundAtDelimiters` | cmd/main.go:164-178 | Conversely, every successful extraction returns the text between such a backslash/quote pair. With `DelimitersFound`, success holds exactly when the pair exists. |
| `FileName.NotFoundCases` | cmd/main.go:164-175 | Extraction returns `("", false)` when the normalised line has no backslash. It does the same when no quote follows the last backslash. |
| `FileName.ExtractEmbedded` | cmd/main.go:162-180 | For any prefix, `prefix + "\" + name + "'" + suffix` yields `(name, true)` under three conditions: the name has no backslash or newline, and the suffix has no backslash or quote. The name may contain quotes. |
| `FileName.SampleLine` | cmd/main.go:257 | The sample Wazuh line `File 'c:\windows\system32\sru\srudb.dat' added Mode: scheduled` yields `("srudb.dat", true)`. |
| `FileName.LineWithoutPath` | cmd/main.go:166-169 | `no path here` yields `("", false)`. |
| `FileName.QuoteInsideName` | cmd/main.go:172-178 | A quote before the closing one stays in the name: `File 'C:\it's.txt' added` yields `("it's.txt", true)`. |
| `FileName.EmptyNameAfterBackslash` | cmd/main.go:170-178 | For any prefix, and any suffix without a backslash or quote, a quote immediately after the last backslash is a success with the empty name. For example, `File 'C:\' added` yields `("", true)`. |
| `FileName.ReExtractFindsNothing` | cmd/main.go:166-169 | Extracting from an extracted name yields `("", false)`. |
| `Misp.GetMispObject` | cmd/main.go:60-69 | The result is not-found exactly when no object has the name. Otherwise it is the first object with that name. |
| `Misp.FirstNamedExists` | cmd/main.go:60-69 | If some object has the name, a first such object exists. So `GetMispObject`'s contract determines its result. |
| `Misp.FindValue` | cmd/main.go:146-159 | Returns the value of the first attribute whose relation is the key, or `""` when no attribute has that relation. |
| `Misp.ExtractMispObjectInfo` | cmd/main.go:72-94 | With a nil filter, the key set is the set of all relations. With a filter, it is that set intersected with the filter's keys. Each key maps to the value of the last attribute with that relation. |
| `Misp.FindValueAgreesWithExtract` | cmd/main.go:79-91 | When no relation repeats, `FindValue` agrees with the unfiltered map on every key in the map, and returns `""` for keys outside it. |
| `Misp.DuplicateRelationTieBreak` | cmd/main.go:150-155 | With the relation `name` given twice, `FindValue` returns the first value and the unfiltered extraction keeps the second. |
| `Misp.EmptyFilterKeepsNothing` | cmd/main.go:75-91 | A non-nil empty filter keeps nothing. A nil filter keeps something whenever there is at least one attribute. |
| `Wazuh.EventFields` | cmd/main.go:103-107 | The alert starts with exactly the keys `info`, `date`, `id`, `uuid` and `threat_level`. Each holds the corresponding field of the event (`Info`, `Date`, `Id`, `Uuid`, `ThreatLevel`) verbatim. |
| `Wazuh.Drain` | cmd/main.go:130-138 | Each receipt of the select loop stores the map from the channel it came from under that channel's key (`Malware_analysis` or `Malware`). Every other entry is left unchanged, and nothing else is added. |
| `Wazuh.Merge` | cmd/main.go:103-138 | Once both maps are received, the alert has exactly the seven keys. It holds the five copied fields, the analysis map and the malware map. |
| `Wazuh.GenerateWazuhResponse` | cmd/main.go:97-141 | With no "malware-analysis" object the result is the `MissingMalwareAnalysis` error, whatever else the event holds. `ProjectionError.Message` gives that error's text from line 111, and the text for `MissingMalware` from line 119. With one but no "malware" object, it is the other error. With both it succeeds, and no partial alert is ever returned. On success the alert holds the seven keys and the five fields of `Response[0].Event` verbatim. `Malware_analysis` is the unfiltered extraction of the first "malware-analysis" object. `Malware` is the extraction of the first "malware" object filtered to `name` and `malware_type`. |
| `Wazuh.MergeIndependentOfArrival` | cmd/main.go:130-138 | The merged alert is the same whichever channel delivers first. |
| `Wazuh.ResponseIndependentOfArrival` | cmd/main.go:114-138 | The whole response, success or error, does not depend on the order in which the two goroutines finish. |
| `Wazuh.AlertObjectEntries` | cmd/main.go:122-136 | When both objects exist, `Malware` holds exactly the `name` and `malware_type` relations of the first "malware" object, each with its last value. `Malware_analysis` holds every relation of the first "malware-analysis" object. |

## Left out

- `mispSearchRequest` (cmd/main.go:189-235) does HTTP, JSON marshalling and TLS setup through library calls that cannot be modelled here. Its request body carries `searchall` (the file name) and `returnFormat` (from configuration). It also sets the process-wide transport to skip certificate checks.
- `main`, `readInput`, `readConfig` and `readWazuhInput` (cmd/main.go:237-360) are I/O: stdin, the log file, the configuration loader and JSON decoding and encoding. This also covers the early return on an empty search result (lines 284-287). Rendering the alert as JSON is left out for the same reason.
- `WazuhResult` (cmd/main.go:22-25) is declared but never used.
- `AttributeCount` is carried in `MispEvent` but is not copied into the alert, as in the source.
- Goroutines and channels as such are not modelled; the fan-in is two pure calls plus the arrival order. When the "malware" object is missing, the source leaves the analysis goroutine blocked on a channel nobody reads. That is a runtime leak, not a value, so it is not modelled.
- Panics on malformed input and the `.(string)` type assertion (cmd/main.go:357) belong to the input layer above.
