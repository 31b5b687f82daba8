# Satellite echo pass analysis — a Dafny model of `parselog.py`

`parselog.py` reads two WSJT-X logs (what the station transmitted and what it
received) and a Pycom tracking log (satellite position, tuned frequencies and
Doppler estimates every few seconds). It then:

1. detects **echoes**: a transmission heard back through the satellite with the
   same mode and message, within one second, on a different frequency, and
   carrying the operator's callsign;
2. attaches to every echo the **tracking sample** nearest in time, when one is
   strictly closer than five seconds;
3. cuts the time-ordered echoes into **passes**: it cuts after a gap longer than
   thirty minutes, or between two neighbouring tracked echoes on different satellites;
4. for every pass, computes the **statistics**: counts, SNR and tuned-frequency
   ranges, and the centre drift, which is the rounded mean of the first and last
   tracked echoes' drifts;
5. for every pass, extracts the **track**: every sample of the pass's satellite
   from ten minutes before its first tracked echo to ten minutes after its last;
6. for every pass, produces the **console listing**, the **CSV rows** and the
   **trajectory document**, with Drift, Residual Doppler and Offset Delta
   computed per row.

The model takes the parsed record lists as input. Timestamps are integer
seconds. Frequencies, DT, azimuth, elevation and range are `real` values that
are only copied, compared or clipped. Every tuning constant is a field of
`Config`; `DefaultConfig` holds the program's values (1 s, 5 s, 30 min and
10 min, and the marker `M0SNZ`).

Modules:

- `Records`: the records.
- `Sorting`: Python's stable `sorted`.
- `EchoMatch`: `find_echoes`.
- `Telemetry`: `match_echo_to_pycom` and the correlation loop of `main`.
- `Passes`: `group_by_pass`.
- `PassStats`: `calculate_pass_stats` and the drift formulas.
- `Track`: `extract_full_pass_track`.
- `Timestamps`: the `YYMMDD_HHMMSS` decode and the `%Y%m%d_%H%M%S` stem.
- `Report`: the printed and exported rows, and `export_pass`.
- `Pipeline`: `main`.

These places in the code are loops that build up state, so they are methods
with loop invariants:

- the nested scan of `find_echoes`;
- the correlation loop;
- `group_by_pass`;
- the loop over passes in `main`.

The other operations are expressions over lists, so they are functions, and
lemmas state their properties.

Three details of the code that the model keeps:

- The track's start and end are the first and last tracked echo times, not the
  widened window.
- A tracking record carries no tracking or frequency-scaling flags, because the
  parser drops them.
- The trajectory document's `sat` is the satellite of the first tracked echo in
  pass order, which `export_pass` finds with its own loop.

## Model

| member | source | states |
|---|---|---|
| Sorting.SortBy | parselog.py:119 | the result is ordered by the key and is a permutation of the input |
| Sorting.SortByStable | parselog.py:256 | the sort is stable: for every key, the elements with that key keep their input order |
| Sorting.SortByHead | parselog.py:256-257 | the head of the sorted list is the first input element carrying the least key |
| Sorting.SortByLast | parselog.py:259-260 | the last element of the sorted list carries the greatest key |
| Sorting.SortBySorted | parselog.py:256 | sorting a list that is already ordered by the key leaves it unchanged |
| EchoMatch.ContainsIffOccurs | parselog.py:104 | the marker test holds iff the marker occurs at some position of the received message |
| EchoMatch.FirstMatch | parselog.py:99-118 | the chosen reception qualifies and no earlier one does (the `break`); `None` iff no reception qualifies |
| EchoMatch.ScanReceptions | parselog.py:99-118 | the inner loop over receptions, with `continue` and `break`: it yields the echo of the first qualifying reception, or none |
| EchoMatch.MatchesSound | parselog.py:100-117 | every echo is built from a transmission and a reception with equal mode and message, \|Δt\| ≤ tolerance, different frequency, and the marker present |
| EchoMatch.MatchesComplete | parselog.py:98-118 | every transmission with some qualifying reception yields an echo, built from its first qualifying reception |
| EchoMatch.MatchesAtMostOnePerTx | parselog.py:98-118 | each transmission contributes at most one echo |
| EchoMatch.MatchesAppend | parselog.py:98-118 | matching is per transmission: the echoes of a concatenation are the echoes of each part, in order |
| EchoMatch.OnlyCandidateChosen | parselog.py:99-118 | a transmission with exactly one qualifying reception gets that echo, wherever the reception stands in the list |
| EchoMatch.FindEchoes | parselog.py:96-119 | the nested scan with its `break`, then a stable sort: the result is the sorted matches, ordered by time, a permutation of the matches, and no longer than the transmissions |
| Telemetry.Nearest | parselog.py:157 | `min` by time distance: the distance is minimal, and every earlier sample is strictly farther (first minimum wins) |
| Telemetry.MatchTelemetry | parselog.py:154-159 | a sample is attached iff some sample is strictly closer than the limit; it then has the minimal distance, is the earliest such sample, and carries that distance; an empty list gives none |
| Telemetry.OnlyCloseSampleChosen | parselog.py:154-159 | a sample that is the only one within the limit is attached, wherever it stands in the list |
| Telemetry.Correlate | parselog.py:348-358 | one combined record per echo, in order, each with the echo's telemetry match; time order is kept |
| Passes.GroupByPass | parselog.py:162-191 | the result is a segmentation of the input: every pass is non-empty, the concatenation is the input, there is no break inside a pass and a break at every boundary; empty input gives no pass |
| Passes.SegmentationFirst | parselog.py:168-188 | the first pass reaches exactly up to the first break of the input |
| Passes.SegmentationUnique | parselog.py:162-191 | a sequence has only one segmentation, so the contract of `GroupByPass` determines its result |
| Passes.SingleEchoOnePass | parselog.py:162-191 | a single echo forms one pass of size 1 |
| Passes.SatelliteSwitchSplits | parselog.py:173-181 | an untracked echo, then two tracked echoes on different satellites, all close in time, form passes of sizes 2 and 1 |
| Passes.PassesOfSortedInput | parselog.py:162-191 | every pass of a time-ordered input is time-ordered |
| PassStats.ValidItems | parselog.py:198 | the telemetry-bearing members of a pass, drawn from the pass |
| PassStats.ValidItemsSound | parselog.py:198 | every valid item is a member of the pass, at some index |
| PassStats.ValidItemsEmpty | parselog.py:198-202 | there are no valid items exactly when no member of the pass is tracked |
| PassStats.ValidItemsAppend | parselog.py:198 | the filter keeps order: the valid items of a concatenation are those of each part |
| PassStats.ValidItemsComplete | parselog.py:198 | every telemetry-bearing member of the pass is among the valid items |
| PassStats.MinOf | parselog.py:228 | the minimum is an element of the list and bounds every element from below |
| PassStats.MaxOf | parselog.py:229 | the maximum is an element of the list and bounds every element from above |
| PassStats.HalfRoundEven | parselog.py:220 | Python's `round(n / 2)`: exact for even n; for odd n, one of the two neighbouring integers, and the even one |
| PassStats.Statistics | parselog.py:194-244 | `{}` iff the pass is empty; the no-satellite record, with the echo count and a centre drift of 0, iff no member is tracked; otherwise the echo count, the number of tracked members, min ≤ max for SNR and for tuned frequency, and the centre drift of the first and last tracked members |
| PassStats.TotalFreqRange | parselog.py:217-243 | the tuned-frequency minimum and maximum (main + sub) are attained by tracked members and bound every tracked member |
| PassStats.SnrRange | parselog.py:228-229 | the SNR minimum and maximum are attained by tracked members and bound every tracked member |
| PassStats.CenterDriftIgnoresMiddle | parselog.py:218-220 | the centre drift depends only on the first and last tracked members: members inserted between them leave it unchanged |
| PassStats.DriftCentered | parselog.py:218-220 | after centring, the drifts of the first and last tracked members sum to -1, 0 or 1, and to 0 exactly when their raw sum is even |
| Track.ToPoint | parselog.py:266 | a point copies the sample and clips its elevation to `max(el, 0)` |
| Track.Select | parselog.py:265-269 | the selected points number at most the samples, and none has a negative elevation |
| Track.SelectAppend | parselog.py:265-269 | selection keeps the samples' order: selecting from a concatenation is selecting from each part |
| Track.SelectSound | parselog.py:265-269 | every point comes from a sample of the satellite inside the window |
| Track.SelectComplete | parselog.py:265-269 | every sample of the satellite inside the window gives a point, negative elevation or not |
| Track.PassAnchor | parselog.py:256-260 | the start of the track is not after its end |
| Track.AnchorSpec | parselog.py:256-260 | the satellite and start come from the earliest tracked echo (first in pass order on ties); start and end bound all tracked echo times, and the end is attained |
| Track.AnchorOfSortedPass | parselog.py:256-260 | for a time-ordered pass, the satellite, start and end are those of the first and last tracked members |
| Track.ExtractTrack | parselog.py:247-274 | none without tracked members; otherwise a track exists iff the satellite's samples in [start − margin, end + margin] give at least two points, and it then holds exactly those points, the anchor's satellite, start and end, with start ≤ end and no negative elevation |
| Timestamps.DecodeTsText | parselog.py:64-67 | the six two-digit fields, the year counted from 2000, decode exactly when they form a valid calendar date and time, and then to those values |
| Timestamps.Pad2 | parselog.py:291 | two-digit padding reads back as the number |
| Timestamps.FormatStampRoundTrip | parselog.py:286-291 | the file-name stamp of a decoded timestamp is the timestamp text with `20` in front |
| Report.ConsoleLine | parselog.py:398-415 | a printed line copies the echo's columns and has telemetry columns iff the echo is tracked; offset delta = tx offset − rx offset, Drift = main + rx + sub − tx − centre drift, Residual Doppler = Drift − Doppler up − Doppler down, the other columns copied from the sample |
| Report.ConsoleLines | parselog.py:398-415 | one printed line per echo, in pass order, the k-th being the line of the k-th echo |
| Report.CsvRow | parselog.py:304-320 | a row copies the echo's and the sample's columns, with Offset Delta = tx − rx, Main+Sub, Drift = main + rx + sub − tx − centre drift and Residual Doppler = Drift − Doppler up − Doppler down; the derived columns can also be recomputed from the others in the row |
| Report.CsvRows | parselog.py:304-320 | one CSV row per tracked echo, each with telemetry |
| Report.CsvRowsMatchConsole | parselog.py:304-320 | the k-th exported row equals the printed line of the k-th tracked echo |
| Report.PassLabel | parselog.py:375-377 | the heading names the first tracked echo's satellite, or `Unknown`, and the first echo's time |
| Report.JsonPoints | parselog.py:332 | one document point per track point, in order, with the position copied, uplink = sub, downlink = main and the Doppler values copied |
| Report.BaseName | parselog.py:278-295 | no file name iff no member is tracked; otherwise `20` + the first tracked echo's timestamp text + `_` + its satellite |
| Report.ExportPass | parselog.py:277-336 | exports iff some member is tracked; the file-name stem is `BaseName`; the rows are the CSV rows; a document exists iff a track exists, named after the first tracked echo's satellite, with uplink = sub and downlink = main |
| Report.ExportPassAsWritten | parselog.py:277-336 | nothing is exported iff no member is tracked; the export fails after writing the CSV iff some member is tracked and there is no track |
| Report.ShortTrackCrashesExport | parselog.py:325-331 | with tracked members and fewer than two tracking samples in the log, there is no track and the export as written fails |
| Pipeline.ReportPass | parselog.py:373-420 | the statistics of a report are those of its pass and are never `{}`; there is an export iff some member is tracked |
| Pipeline.ReportPassConsistent | parselog.py:398-420 | one printed line per echo; the exported rows are the printed lines of the tracked echoes; a track and a trajectory document exist together |
| Pipeline.ReportAll | parselog.py:373-420 | the loop over passes yields one report per pass, in order, the i-th being the report of the i-th pass |
| Pipeline.SatelliteAgrees | parselog.py:373-420 | for a time-ordered pass, the heading, the track and the document name the same satellite, and the track spans the first to the last tracked echo |
| Pipeline.EchoStampsDecodable | parselog.py:107-109 | every echo carries a transmission's timestamp text, so it decodes |
| Pipeline.Run | parselog.py:339-425 | echoes are the sorted matches; each echo is paired with its telemetry match; the passes segment the result and each is time-ordered; one report per pass; no echo means no pass |

## Left out

- Reading the three log files, the two regular expressions and `strptime` are not modelled. The inputs are the parsed record lists.
- Writing the files is not modelled: the CSV and JSON serialisation, the skip when a file already exists, and creating the output directory. `Report.ExportPass` returns what would be written.
- The console output and number formatting (`:.1f`, `:.0f`, `isoformat`) are not modelled. Rows carry the unformatted values.
- The floating-point statistics are not modelled: the means, standard deviations, azimuth, elevation and range extremes, and Doppler means with their rounding.
- `Report.ExportPass` models `export_pass` as intended. The crash it has as written is modelled separately, under "## Findings".
- `Pipeline.Run` models `main` with the corrected `Report.ExportPass`, so every pass gets a report. As written, `main` stops at the first pass that has a tracked echo but no track: the `export_pass` call at parselog.py:420 raises at parselog.py:330, after that pass's CSV file is written, and later passes are neither printed nor exported.
- `Telemetry.MatchTelemetry` treats timestamps as whole seconds, which both log formats give, so `total_seconds()` is exact.
- `PassStats.HalfRoundEven` rounds `(a + b) / 2` exactly. Python computes that division in floating point, which is inexact only for sums beyond 2^53 Hz.
- `EchoMatch.Qualifies` compares frequencies as reals. Python compares them as floats parsed from the same text.
- `Timestamps.IsTsText` accepts ASCII digits only. Python's `\d` also matches other Unicode digits.
- `Pipeline.Run` requires every transmission's timestamp text to decode. This holds for every line the parser returns, because `parse_wsjt_line` discards lines whose date is invalid.
- polar.py is not part of this model. It only plots the exported files.

## Findings

| source | as written | input that shows it | evidently intended | confidence | as-written member | corrected member |
|---|---|---|---|---|---|---|
| parselog.py:325-331 | `if track_data:` tests the 4-tuple `(None, None, None, None)`, which is truthy, so `track_data[1].isoformat()` raises AttributeError | a pass with a tracked echo, and a tracking log holding that one sample only (fewer than two track points) | skip the trajectory document when there is no track | high, not executed | Report.ShortTrackCrashesExport | Report.ExportPass |
