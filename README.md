# Nagios probes: severity logic

This project models the decision logic of three Nagios/Zabbix probes:

- **Seafile sync probe** (`SeafileSync`). It reads the lines of `seaf-cli status`. It keeps a store that maps each library to the last time it was seen `synchronized`, or to the time it was first seen if it has not been synchronized since. The store persists between runs. It reports every library's phase and how long a library has spent in a transient phase. The status escalates to WARNING or CRITICAL past two thresholds in minutes. Any phase it does not know is CRITICAL.
  - `CheckSync` is the loop, with the source's own variables: the store, the exit status and the message text.
  - It is proved against `Run`, a fold of `Step` over the lines.
  - Lemmas about `Step` and `Run` state the promised behaviour.
- **Expiry date probe** (`ExpiryDate`, with `Calendar`). It collects the services of a hosting account with their expiry dates. It finds the fewest days left and grades that number against a warning and a critical threshold in days. Then it prints `Expired N day(s) ago. …` or `Expires in N day(s). …`.
  - The two providers' data are inputs: pureservers API records, and the text of 62yun server cards.
  - Today's date is an input too.
  - Dates follow Python's `datetime.date`: the proleptic Gregorian calendar, `toordinal()` and `strftime("%Y-%m-%d")`.
- **Zabbix item wrapper** (`ZabbixItemWrapper`). It turns a plugin's return code and output into the `{"status", "status_text"}` object.

Shared pieces:

- `Nagios`: the status codes, the name table and the severity maximum.
- `Text`: Python's `isspace`, `lstrip`/`rstrip`, `split()` with `maxsplit=1`, `split(sep)`, `join`, `str(int)` and `int(str)`.
- `Wrappers`: `Option` and `Result`. A Python exception is an `Err`. In the probes it carries the exception's message; in the wrapper it carries `KeyError(code)`.

## Model

| member | source | states |
|---|---|---|
| Nagios.MaxStatus | check_seafile_sync/check_seafile_sync.py:54-63 | the escalated status is the worse of the two and is one of them: WARNING never overwrites CRITICAL |
| ZabbixItemWrapper.MakeStatusObject | tools/zabbix_item_wrapper.py:22-28 | `status` is the return code; `status_text` is rstripped stdout, or the code's name, a space and the rstripped stdout; in text mode a code outside the table is a `KeyError` of that code, and in no-text mode every code is accepted |
| ZabbixItemWrapper.StatusNamesTable | tools/zabbix_item_wrapper.py:12-17 | the table maps exactly -1, 0, 1 and 2 to UNKNOWN, OK, WARNING and CRITICAL, and no two codes share a name |
| ZabbixItemWrapper.StatusTextNamesStatus | tools/zabbix_item_wrapper.py:26-28 | in text mode the first word of `status_text` names the return code, whatever the command printed |
| ZabbixItemWrapper.StatusTextKeepsOutput | tools/zabbix_item_wrapper.py:23-28 | in both modes the text is the prefix followed by exactly the stripped output |
| ZabbixItemWrapper.NoTextStatusIsTrimmed | tools/zabbix_item_wrapper.py:23-24 | the no-text status text never ends in whitespace, and wrapping it again changes nothing |
| Text.IsSpace | check_seafile_sync/check_seafile_sync.py:35 | `str.isspace()` on one character: Python's whitespace set; `LStrip`, `RStrip` and `SplitFirstWord` are stated in its terms |
| Text.LStrip | check_seafile_sync/check_seafile_sync.py:35 | `lstrip()` keeps a suffix, drops only whitespace, and leaves no leading whitespace |
| Text.TakeWord | check_seafile_sync/check_seafile_sync.py:35 | the word step of `split()`: the longest prefix without whitespace |
| Text.RStrip | tools/zabbix_item_wrapper.py:24 | `rstrip()` keeps a prefix, drops only whitespace, and leaves no trailing whitespace |
| Text.RStripUnique | tools/zabbix_item_wrapper.py:24 | those three facts determine the result of `rstrip()` |
| Text.RStripIdempotent | tools/zabbix_item_wrapper.py:24 | stripping twice equals stripping once |
| Text.SplitFirstWord | check_seafile_sync/check_seafile_sync.py:35 | `split(maxsplit=1)` gives at most two parts, none empty or starting with whitespace, and the first holds no whitespace; a blank line gives no parts |
| Text.SplitFirstWordOf | check_seafile_sync/check_seafile_sync.py:35 | a line laid out as whitespace, word, whitespace, rest splits into exactly the word and the rest |
| Text.Split | check_balance/check_expiry_date.py:111-112 | `split(sep)` for one separator character: at least one piece and no piece holds the separator |
| Text.Join | check_balance/check_expiry_date.py:138 | `sep.join(parts)`; `JoinSplit` and `SplitJoin` tie it to `Split` |
| Text.JoinSplit | check_balance/check_expiry_date.py:111-112 | joining the pieces of `split(sep)` with the separator restores the string |
| Text.SplitJoin | check_balance/check_expiry_date.py:111-112 | splitting a join restores the pieces when none contains the separator |
| Text.ParseDecimal | check_balance/check_expiry_date.py:116-118 | `int()` on a string of ASCII digits: a value exactly when the string is a non-empty run of digits |
| Text.ParsePadded | check_balance/check_expiry_date.py:116-118 | `int()` of a zero-padded decimal rendering of n is n |
| Text.NatToString | check_balance/check_expiry_date.py:79 | `str(n)` of a natural number: a non-empty run of digits without a leading zero; `ParsePadded` and `NatToStringInjective` state that it reads back |
| Text.IntToString | check_balance/check_expiry_date.py:79 | `str(i)`: non-empty, starting with `-` exactly for a negative `i`, then only digits; `IntToStringReadsBack` and `IntToStringInjective` state that it reads back |
| Text.IntToStringReadsBack | check_balance/check_expiry_date.py:79 | the digits after the sign of `str(i)` read back with `int()` as the magnitude of `i` |
| Text.IntToStringInjective | check_balance/check_expiry_date.py:79 | distinct integers render as distinct strings, so `str(days_left)` determines `days_left` |
| Text.ZeroPad | check_balance/check_expiry_date.py:78 | `%02d`/`%Y` padding: the result has the requested width or more, ends with the digits and is zero before them |
| Text.NatToStringInjective | check_balance/check_expiry_date.py:182-184 | distinct numbers render as distinct digit strings |
| Calendar.ToOrdinal | check_balance/check_expiry_date.py:72-74 | `toordinal()`: days in earlier years and earlier months plus the day; `OrdinalOrder`, `OrdinalOfNextDay` and `OrdinalWithinYear` state it |
| Calendar.IsoFormat | check_balance/check_expiry_date.py:126 | `strftime("%Y-%m-%d")` with zero-padded fields; `IsoFormatFields` states it reads back |
| Calendar.MakeDate | check_balance/check_expiry_date.py:115-119 | `date(year, month, day)` succeeds exactly for an in-range date and then holds those fields; the first argument outside the C `int` range gives its `OverflowError` before any range check |
| Calendar.CIntOverflow | check_balance/check_expiry_date.py:115-119 | an argument fits a C `int` exactly when no overflow message is given, and the C `long` conversion's message is given exactly beyond a 64-bit `long` |
| Calendar.OrdinalOrder | check_balance/check_expiry_date.py:72-74 | `toordinal()` is strictly increasing in calendar order and tells dates apart, so the days left are negative exactly once the date has passed |
| Calendar.OrdinalOfNextDay | check_balance/check_expiry_date.py:72-74 | the ordinal of the following calendar day is one more, across month and year ends and leap days |
| Calendar.OrdinalWithinYear | check_balance/check_expiry_date.py:72-74 | a date's ordinal lies within its own year's span of days |
| Calendar.IsoFormatFields | check_balance/check_expiry_date.py:126 | the `%Y-%m-%d` rendering is ten characters whose three dash-separated fields read back as the year, month and day |
| ExpiryDate.ServerService | check_balance/check_expiry_date.py:67-80 | the service of one pureservers record: its id, its IPv4 address and its expiry date as of today, as `MakeService` states |
| ExpiryDate.ParseYunService | check_balance/check_expiry_date.py:111-128 | a 62yun card is split into lines; IP is line 0, name line 1, and the expiry field line 2; fewer than three lines is an `IndexError`, a bad field is its date error; `YunCardRoundTrip` states what it reads |
| ExpiryDate.MakeService | check_balance/check_expiry_date.py:72-80 | `days_left` is the expiry date's ordinal minus today's, so it is negative exactly when the date has passed and zero exactly on the day; the description is `<id> (<ip>): <YYYY-MM-DD> (<days> day(s))` |
| ExpiryDate.ExpiresTomorrow | check_balance/check_expiry_date.py:72-74 | a service expiring tomorrow has one day left, and one that expired yesterday has minus one |
| ExpiryDate.Describe | check_balance/check_expiry_date.py:75-80 | the description `<id> (<ip>): <YYYY-MM-DD> (<days> day(s))`; `MakeService` states that each service carries it, and `IsoFormatFields` states how its date reads back |
| ExpiryDate.PyInt | check_balance/check_expiry_date.py:116-118 | `int()` succeeds exactly on a decimal digit string and yields its value |
| ExpiryDate.ParseYunDate | check_balance/check_expiry_date.py:112-119 | fewer than three dot-separated fields is an `IndexError`; a date that is read is valid, with day field 0, month field 1 and year field 2 |
| ExpiryDate.ParseYunDateField | check_balance/check_expiry_date.py:112-119 | every valid date written `DD.MM.YYYY` reads back as itself |
| ExpiryDate.YunCardRoundTrip | check_balance/check_expiry_date.py:111-128 | a card of IP, name, `DD.MM.YYYY` and any further lines reads back as the service with that name, IP and expiry date |
| ExpiryDate.ServerServices | check_balance/check_expiry_date.py:66-81 | one service per API record, in API order |
| ExpiryDate.ParseAllOk | check_balance/check_expiry_date.py:108-130 | when every item reads, the services are their values in item order |
| ExpiryDate.ParseAllFirstError | check_balance/check_expiry_date.py:108-130 | the first item that fails decides the error, whatever follows |
| ExpiryDate.ServersNeverFail | check_balance/check_expiry_date.py:66-81 | with well-formed records (every key present, `expires_at` within the date range), collecting never raises |
| ExpiryDate.CollectServices | check_balance/check_expiry_date.py:108-130 | the append loop yields all services in order, or the error of the first failing item |
| ExpiryDate.Collected | check_balance/check_expiry_date.py:138 | `status_string` is the `"; "`-join of the descriptions in service order; a provider error is passed through |
| ExpiryDate.GetExpiryDates | check_balance/check_expiry_date.py:45-139 | the collection method computes exactly `Collected` for either provider |
| ExpiryDate.InitialStatus | check_balance/check_expiry_date.py:143-146 | the status before grading: UNKNOWN when the warning threshold is below the critical one, else OK |
| ExpiryDate.ThresholdWarning | check_balance/check_expiry_date.py:144-146 | the misconfiguration line is printed exactly when the warning threshold is below the critical one |
| ExpiryDate.Classify | check_balance/check_expiry_date.py:176-179 | critical checked first, both tests strict, else the initial status; `ClassifyCases` and `ClassifyMonotone` state its grades |
| ExpiryDate.ExpiryMessage | check_balance/check_expiry_date.py:181-184 | `Expired <abs m> day(s) ago. <summary>` for m < 0, else `Expires in <m> day(s). <summary>`; `ExpiryMessageSign` and `ExpiryMessageInjective` state it |
| ExpiryDate.MinDaysLeft | check_balance/check_expiry_date.py:171-174 | the minimum occurs among the services and bounds every one from below |
| ExpiryDate.FindMinDaysLeft | check_balance/check_expiry_date.py:171-174 | the loop seeded with the first service's count returns that minimum |
| ExpiryDate.MinIsUnique | check_balance/check_expiry_date.py:171-174 | a value that occurs and bounds the list from below is the minimum |
| ExpiryDate.ClassifyCases | check_balance/check_expiry_date.py:143-179 | CRITICAL iff m < critical; WARNING iff critical <= m < warning; UNKNOWN iff warning < critical <= m, so the misconfiguration status survives only when neither threshold is hit; OK iff critical <= warning <= m |
| ExpiryDate.ClassifyMonotone | check_balance/check_expiry_date.py:176-179 | with critical <= warning, fewer days left never gives a milder status, and the status is OK, WARNING or CRITICAL |
| ExpiryDate.ExpiryMessageSign | check_balance/check_expiry_date.py:181-184 | the wording is `Expired … ago` exactly when the minimum is negative |
| ExpiryDate.ExpiryMessageInjective | check_balance/check_expiry_date.py:181-184 | the message determines both the day count and the service summary |
| ExpiryDate.Grade | check_balance/check_expiry_date.py:171-184 | no services is an `IndexError`; otherwise the grade and message of the minimum |
| ExpiryDate.MainBody | check_balance/check_expiry_date.py:142-185 | the misconfiguration line is printed first; a collection error or an empty list escapes; otherwise the grade of the minimum and the message |
| ExpiryDate.CheckExpiry | check_balance/check_expiry_date.py:231-237 | any escaping error, an empty service list included, becomes CRITICAL with `Unhandled exception: …`; otherwise the exit code is the grade |
| SeafileSync.ParseLine | check_seafile_sync/check_seafile_sync.py:33-35 | an empty line raises on `line[0]`; a `#` line is a comment and nothing else is; other lines read as library and phase, or fail to unpack exactly when they have fewer than two words |
| SeafileSync.ParseLineOf | check_seafile_sync/check_seafile_sync.py:34-35 | a line of whitespace, library, whitespace, phase that does not start with `#` reads back as that library and phase; after leading whitespace the library may itself start with `#` |
| SeafileSync.ParseLoneWord | check_seafile_sync/check_seafile_sync.py:35 | a line with a library and no phase fails with the unpacking error for one value |
| SeafileSync.Seed | check_seafile_sync/check_seafile_sync.py:36-38 | an unseen library is added with "now"; a known one and every other entry are untouched |
| SeafileSync.Elapsed | check_seafile_sync/check_seafile_sync.py:52 | the elapsed time is now minus the seeded time, zero for a library seen for the first time |
| SeafileSync.TransientSeverity | check_seafile_sync/check_seafile_sync.py:54-60 | CRITICAL iff elapsed > critical·60; WARNING iff warning·60 < elapsed <= critical·60; OK otherwise; both comparisons strict |
| SeafileSync.Contribution | check_seafile_sync/check_seafile_sync.py:48-64 | each line's severity is OK, WARNING or CRITICAL |
| SeafileSync.Icon | check_seafile_sync/check_seafile_sync.py:53-59 | `status_icon`: `(!)` once either limit is passed, else empty; `Escalate` states that the loop computes it |
| SeafileSync.Fragment | check_seafile_sync/check_seafile_sync.py:48-64 | the fragment starts with `<library>: <phase>`; in a transient phase the rest is a space, the `(!)` mark once a limit is passed, and the elapsed time; in any other phase there is no rest |
| SeafileSync.TimedeltaText | check_seafile_sync/check_seafile_sync.py:61 | `str(timedelta)` to the second; `ClockReadsBack`, `DaysTextSplits` and `ZeroTimedeltaText` state what it writes |
| SeafileSync.ClockReadsBack | check_seafile_sync/check_seafile_sync.py:61 | `str(timedelta)` of less than a day is `H:MM:SS`, whose fields are minutes and seconds below 60 that add up to the delta |
| SeafileSync.ClockFieldsReadBack | check_seafile_sync/check_seafile_sync.py:61 | the three colon-separated fields of `H:MM:SS` read back as h, m and s |
| SeafileSync.DaysTextSplits | check_seafile_sync/check_seafile_sync.py:61 | `str(timedelta)` of a day or more, or of a negative delta, splits at its one comma into the whole days (rounded down) with `day` or `days`, and the text of the remaining seconds of the day; days times 86400 plus those seconds is the delta |
| SeafileSync.ZeroTimedeltaText | check_seafile_sync/check_seafile_sync.py:61 | a zero delta is written `0:00:00` |
| SeafileSync.Step | check_seafile_sync/check_seafile_sync.py:36-64 | the effect of one library line: seeding, the phase's effect on the store, the worse status, the fragment appended; the lemmas below state it case by case |
| SeafileSync.Run | check_seafile_sync/check_seafile_sync.py:33-64 | the lines in order: comments skipped, each library line one `Step`, the first unreadable line ending the run with its error |
| SeafileSync.StepEffect | check_seafile_sync/check_seafile_sync.py:36-64 | one library line changes the store only at its own library; the status never improves and stays a Nagios status; exactly one fragment is appended |
| SeafileSync.SynchronizedResets | check_seafile_sync/check_seafile_sync.py:48-50 | `synchronized` sets the library's time to now, keeps the status and appends `<library>: synchronized` |
| SeafileSync.TransientEscalates | check_seafile_sync/check_seafile_sync.py:51-61 | a transient phase keeps a known library's time; past `warning` minutes the status is at least WARNING, past `critical` minutes CRITICAL, else unchanged; the fragment shows the mark and the elapsed time |
| SeafileSync.FirstSeenIsFresh | check_seafile_sync/check_seafile_sync.py:36-61 | a library first seen in a transient phase gets time now and, with non-negative thresholds, keeps the status, with fragment `<library>: <phase> 0:00:00` |
| SeafileSync.UnknownPhaseIsCritical | check_seafile_sync/check_seafile_sync.py:62-64 | any other phase makes the status CRITICAL, leaves the time of a known library alone and appends `<library>: <phase>` |
| SeafileSync.RunFrom | check_seafile_sync/check_seafile_sync.py:33-64 | one more line of the run is a comment that changes nothing, a library line that takes one `Step`, or an error that ends the run |
| SeafileSync.RunConcat | check_seafile_sync/check_seafile_sync.py:33-64 | running two blocks of lines is running the second from the state the first leaves; an error in the first ends the run |
| SeafileSync.RunOkIff | check_seafile_sync/check_seafile_sync.py:33-35 | a run succeeds exactly when every line reads |
| SeafileSync.RunFirstError | check_seafile_sync/check_seafile_sync.py:33-35 | a run fails with the error of the first unreadable line, whatever follows it |
| SeafileSync.RunStatus | check_seafile_sync/check_seafile_sync.py:54-63 | across the loop the status never decreases and stays OK, WARNING or CRITICAL |
| SeafileSync.RunStore | check_seafile_sync/check_seafile_sync.py:36-50 | the store afterwards holds the loaded libraries plus every library named; a loaded library not named keeps its time, so nothing is pruned |
| SeafileSync.RunFragments | check_seafile_sync/check_seafile_sync.py:40-64 | one fragment per library line, appended after the earlier ones in line order |
| SeafileSync.UnknownPhaseFirst | check_seafile_sync/check_seafile_sync.py:62-63 | a run whose first line has an unknown phase ends CRITICAL |
| SeafileSync.UnknownPhaseMakesCritical | check_seafile_sync/check_seafile_sync.py:62-63 | a library line with an unknown phase anywhere makes a successful run end CRITICAL |
| SeafileSync.RunIgnoresComments | check_seafile_sync/check_seafile_sync.py:34 | removing the comment lines does not change the outcome of a run |
| SeafileSync.DropComments | check_seafile_sync/check_seafile_sync.py:34 | the kept lines are no comments and no more than the original lines |
| SeafileSync.Escalate | check_seafile_sync/check_seafile_sync.py:53-60 | the two threshold tests give the worse of the status and the transient severity, and `(!)` exactly when a limit is passed |
| SeafileSync.Dispatch | check_seafile_sync/check_seafile_sync.py:48-64 | the three-way phase dispatch computes the store, status and fragment of `Step` |
| SeafileSync.JoinNext | check_seafile_sync/check_seafile_sync.py:40-41 | adding `"; "` only after a non-empty text keeps the text equal to the `"; "`-join of the fragments |
| SeafileSync.ProcessEntry | check_seafile_sync/check_seafile_sync.py:36-64 | one library line as the loop body runs it: seeding, separator, dispatch; it yields the `Step` state and a non-empty text |
| SeafileSync.CheckSync | check_seafile_sync/check_seafile_sync.py:19-74 | the loop gives the final status, the `"; "`-joined fragments and the store to save; an unreadable line gives UNKNOWN, `Unhandled exception: <message>` and nothing saved |

## Left out

- Process and file I/O are not modelled: `seaf-cli status`, running the wrapped plugin, the status JSON file (`json.load`/`json.dump`, `os.makedirs`), printing, `sys.exit` and argparse. Their inputs and outputs are parameters and results.
- The clock is not modelled. `datetime.now()` and `date.today()` are parameters.
- SeafileSync.CheckSync: takes a single "now" for the whole run. The probe reads the clock again for every line, so two lines of one run may see different times.
- SeafileSync.CheckSync: stored times are whole seconds, which matches the probe's `replace(microsecond=0)`. Reading the stored ISO strings (`fromisoformat`) and writing them back (`isoformat`) are not modelled, and neither are the errors of a malformed file.
- SeafileSync.CheckSync: its exception path covers only unreadable status lines. The probe's handler also catches failures to load or save the file, which are I/O.
- SeafileSync.ParseLine: treats the output as a sequence of lines already split. `splitlines()` and its set of line breaks are not modelled.
- ExpiryDate.ServersNeverFail: holds only for well-formed records. In the probe, a record without `expires_at`, `num_id` or `primary_ipv4` raises `KeyError`. An `expires_at` outside the date range raises `ValueError` or `OverflowError` in `date.fromtimestamp`. Such records cannot be written as a `ServerRecord`.
- ExpiryDate.ServerService: takes the API's `expires_at` as a calendar date. The division of milliseconds by 1000 and the local time zone of `date.fromtimestamp` are not modelled.
- The HTTP session, the Playwright browser steps, and the HTTP status checks that raise are not modelled. Those are foreign calls.
- ExpiryDate.PyInt: does not model the limit on the length of a decimal string. Since Python 3.11, `int()` raises `ValueError` on more than 4300 digits; the model reads such strings.
- ExpiryDate.PyInt: accepts plain ASCII digits only. Python's `int()` also accepts surrounding whitespace, a sign, underscores and other Unicode digits.
- ExpiryDate.PyInt: its error message does not reproduce Python's `repr` quoting of strings holding quotes or escapes.
- Calendar.IsoFormat: pads years below 1000 to four digits. Some C libraries print `%Y` without padding.
- Calendar.MakeDate: its error messages, the `OverflowError` of an argument beyond the C `int` range included, are those of CPython's C `_datetime` module up to Python 3.12. The pure-Python `datetime` module and later versions word them differently. The C `long` is taken to be 64 bits wide, as on 64-bit Linux; where it is 32 bits wide (Windows), every argument beyond the C `int` range gives "Python int too large to convert to C long".
- Verbose output and the timestamped logging are not modelled.
- The final `Status: …` line, which reads the exit-code name table, is not modelled.
- The wrapper's JSON printing of the status object is not modelled.
