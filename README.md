# Capacitor Google Fit plugin: a Dafny model

This project models the Android side of the Capacitor "GoogleFit" plugin
(`GoogleFitPlugin.java`). The plugin is a thin bridge between a web app and the
Google Sign-In and Google Fit history SDKs. The model covers the plugin's own
decisions and translations:

- the `timeUnit` string to `TimeUnit` mapping, with its HOURS fallback;
- `dateToTimestamp` and its `-1` sentinel;
- the common prefix of `getSteps`, `getWeight` and `getActivities`: the account
  check, the defaults (`timeUnit` "HOURS", `bucketSize` 1), the sentinel check and
  the request parameters handed to the SDK;
- the three success listeners that flatten a bucket → data set → data point → field
  response into a flat JSON array, including the early `reject` when a JSON write
  throws;
- `isAllowed`, `connectToGoogleFit` and the `handleOnActivityResult` dispatch on
  the two request codes 19849 (permissions) and 1337 (sign-in).

Everything the SDKs and Capacitor decide is a parameter or a field of the model:

- `parse` stands for `SimpleDateFormat.parse`. It yields `None` where the Java
  parser throws.
- `accepts` says whether `JSONObject.put` takes a value without throwing.
- `vendor` is the outcome of `HistoryClient.readData`.
- `account` and `permitted` are the sign-in state that the SDK reports.
- `savedCall` is what Capacitor's `getSavedCall()` returns.

Files, one module each:

| file | module | models |
|---|---|---|
| wrappers.dfy | Wrappers | `Option`, for nullable values and absent call parameters |
| bridge.dfy | Bridge | the outcome of a plugin call; a run of fallible JSON writes |
| time_unit.dfy | TimeUnits | `stringToTimeUnit` |
| timestamps.dfy | Timestamps | `dateToTimestamp` |
| read_gate.dfy | ReadGate | the validation prefix of the three readers |
| fitness_data.dfy | FitnessData | the vendor response structure |
| flatten.dfy | Flatten | the three `onSuccess` listeners and their specifications |
| history_reads.dfy | HistoryReads | `getSteps`, `getWeight`, `getActivities` end to end |
| connection.dfy | Connection | `isAllowed`, `connectToGoogleFit`, `handleOnActivityResult` |

The listeners are imperative methods with the source's nested loops. Each is proved
equal to a recursive specification function. The properties of the output (one entry
per field, order, one activity per bucket, last calorie value wins, nothing delivered
after a fault) are lemmas about those functions.

Behaviours of the code worth knowing, each modelled as written:

- Only a bucket size of exactly `-1` is refused (line 132). A size of 0 or -5
  passes the check and reaches the SDK (`ReadGate.NonPositiveBucketSizesPass`).
- `connectToGoogleFit` resolves the call at once in both branches (line 83), before
  sign-in or the permission grant has finished (`Connection.ConnectResolvesBeforeSignIn`).
- An absent `startTime` or `endTime` makes `getString` return null, and
  `date.isEmpty()` (line 336) then throws `NullPointerException`. The model ends such
  a call in `Crashed`.
- The steps listener writes one entry per field of every data point. So 2 buckets ×
  1 data set × 2 single-field points give 4 entries (`Flatten.TwoBucketsOfTwoPoints`).

The sentinel is ambiguous in the code as written. A date that parses to one
millisecond before the epoch also yields `-1`, so it is refused like an unparsable
date (`Timestamps.SentinelExactly`, `ReadGate.EpochMinusOneRefused`).

## Model

| member | source | states |
|---|---|---|
| TimeUnits.StringToTimeUnit | android/src/main/java/de/perfood/capacitorgooglefit/GoogleFitPlugin.java:347-365 | a recognised name yields the unit of that name; any other string yields HOURS |
| TimeUnits.NameRoundTrip | android/src/main/java/de/perfood/capacitorgooglefit/GoogleFitPlugin.java:348-362 | each of the seven units is recognised and reached from its own name |
| TimeUnits.NameInjective | android/src/main/java/de/perfood/capacitorgooglefit/GoogleFitPlugin.java:348-362 | distinct units have distinct names |
| TimeUnits.HoursIsTheFallback | android/src/main/java/de/perfood/capacitorgooglefit/GoogleFitPlugin.java:359-364 | the result is HOURS exactly for "HOURS" and for every unrecognised string |
| TimeUnits.CaseExact | android/src/main/java/de/perfood/capacitorgooglefit/GoogleFitPlugin.java:348-365 | "", lower-case and mixed-case names and "WEEKS" all yield HOURS |
| Timestamps.DateToTimestamp | android/src/main/java/de/perfood/capacitorgooglefit/GoogleFitPlugin.java:335-345 | the empty string and a parse failure give -1; any other result is the parsed milliseconds |
| Timestamps.SentinelExactly | android/src/main/java/de/perfood/capacitorgooglefit/GoogleFitPlugin.java:335-345 | -1 comes back exactly for "", a parse failure, or a date parsed to -1 ms |
| Timestamps.ParsedPassesThrough | android/src/main/java/de/perfood/capacitorgooglefit/GoogleFitPlugin.java:339-341 | a successfully parsed non-empty date returns its parsed value unchanged |
| ReadGate.RequestedBucketing | android/src/main/java/de/perfood/capacitorgooglefit/GoogleFitPlugin.java:126-130 | absent timeUnit defaults to HOURS and absent bucketSize to 1; given values are used |
| ReadGate.CheckBucketedRead | android/src/main/java/de/perfood/capacitorgooglefit/GoogleFitPlugin.java:116-143 | no account rejects "No access"; absent date throws; the request is built iff both times and the bucket size differ from -1; otherwise rejects "Must provide a start time and end time" |
| ReadGate.CheckWeightRead | android/src/main/java/de/perfood/capacitorgooglefit/GoogleFitPlugin.java:186-205 | as the bucketed check, but only the two times are checked and the raw weight request has no bucketing |
| ReadGate.NoAccountIgnoresParameters | android/src/main/java/de/perfood/capacitorgooglefit/GoogleFitPlugin.java:116-121 | without an account the outcome does not depend on the parameters or the parser |
| ReadGate.NonPositiveBucketSizesPass | android/src/main/java/de/perfood/capacitorgooglefit/GoogleFitPlugin.java:130-141 | bucket sizes 0 and -5 are not rejected and reach the request |
| ReadGate.DefaultsToOneHour | android/src/main/java/de/perfood/capacitorgooglefit/GoogleFitPlugin.java:126-141 | with no timeUnit and no bucketSize the request buckets by one hour |
| ReadGate.WeightIgnoresBucketSize | android/src/main/java/de/perfood/capacitorgooglefit/GoogleFitPlugin.java:193-205 | the weight read's outcome does not depend on timeUnit or bucketSize |
| ReadGate.BucketedIsWeightPlusBucketCheck | android/src/main/java/de/perfood/capacitorgooglefit/GoogleFitPlugin.java:132-136 | a bucketed read proceeds iff the weight check would and bucketSize is not -1 |
| ReadGate.UnusableStartRefused | android/src/main/java/de/perfood/capacitorgooglefit/GoogleFitPlugin.java:123-136 | an empty or unparsable start date is rejected by every reader before a request is built |
| ReadGate.EpochMinusOneRefused | android/src/main/java/de/perfood/capacitorgooglefit/GoogleFitPlugin.java:132-136 | a start date parsed to -1 ms is rejected like an unparsable one |
| Bridge.FirstRefused | android/src/main/java/de/perfood/capacitorgooglefit/GoogleFitPlugin.java:161-169 | the index where the write loop stops: every earlier write succeeded, the one there throws |
| Bridge.FirstFault | android/src/main/java/de/perfood/capacitorgooglefit/GoogleFitPlugin.java:161-169 | no fault iff every write is accepted; otherwise the value of the first refused write |
| Bridge.DeliverAllOrNothing | android/src/main/java/de/perfood/capacitorgooglefit/GoogleFitPlugin.java:161-178 | the call resolves, with the whole payload, iff every write succeeds; otherwise it rejects with a write fault |
| Bridge.DeliverNamesFirstFault | android/src/main/java/de/perfood/capacitorgooglefit/GoogleFitPlugin.java:166-168 | a refused write at position i makes the call reject with a refused value at or before i |
| Bridge.DeliverIgnoresLaterWrites | android/src/main/java/de/perfood/capacitorgooglefit/GoogleFitPlugin.java:166-169 | after a refused write, whatever follows cannot change the outcome |
| Bridge.DeliverFaultAfter | android/src/main/java/de/perfood/capacitorgooglefit/GoogleFitPlugin.java:161-169 | once every earlier write succeeded, a refused value rejects the call with that value, whatever writes would follow |
| Bridge.FirstFaultSplit | android/src/main/java/de/perfood/capacitorgooglefit/GoogleFitPlugin.java:156-173 | after a clean prefix, a faulting inner run decides the fault of the whole; a clean one passes the search on |
| Flatten.AppendPointEntries | android/src/main/java/de/perfood/capacitorgooglefit/GoogleFitPlugin.java:158-170 | the data-point and field loops append exactly the point entries, or stop with the first refused value |
| Flatten.FlattenSteps | android/src/main/java/de/perfood/capacitorgooglefit/GoogleFitPlugin.java:152-178 | the listener's outcome is the all-or-nothing delivery of the flattened steps entries |
| Flatten.FlattenWeight | android/src/main/java/de/perfood/capacitorgooglefit/GoogleFitPlugin.java:214-233 | the listener's outcome is the all-or-nothing delivery of the weight data set's entries |
| Flatten.BucketActivity | android/src/main/java/de/perfood/capacitorgooglefit/GoogleFitPlugin.java:281-300 | one bucket's entry has the last calorie value written, or the first refused calorie value is reported |
| Flatten.FlattenActivities | android/src/main/java/de/perfood/capacitorgooglefit/GoogleFitPlugin.java:276-309 | the listener's outcome is the all-or-nothing delivery of one entry per bucket |
| Flatten.FieldSamplesAt | android/src/main/java/de/perfood/capacitorgooglefit/GoogleFitPlugin.java:159-165 | entry i of a data point has the point's start and end and the value of field i |
| Flatten.StepEntriesLength | android/src/main/java/de/perfood/capacitorgooglefit/GoogleFitPlugin.java:156-173 | the number of steps entries is the number of fields over all data points of all buckets |
| Flatten.WeightEntriesLength | android/src/main/java/de/perfood/capacitorgooglefit/GoogleFitPlugin.java:217-230 | the number of weight entries is the number of fields over the weight data set |
| Flatten.StepEntriesAppend | android/src/main/java/de/perfood/capacitorgooglefit/GoogleFitPlugin.java:156-173 | the flattening of two runs of buckets is the first's entries followed by the second's |
| Flatten.PointsSamplesAppend | android/src/main/java/de/perfood/capacitorgooglefit/GoogleFitPlugin.java:217-230 | the flattening of two runs of data points is the first's entries followed by the second's |
| Flatten.ActivityEntriesPerBucket | android/src/main/java/de/perfood/capacitorgooglefit/GoogleFitPlugin.java:280-305 | exactly one activity entry per bucket, entry i made from bucket i |
| Flatten.ActivityOfBucket | android/src/main/java/de/perfood/capacitorgooglefit/GoogleFitPlugin.java:283-299 | an activity entry has its bucket's start, end and activity name |
| Flatten.CaloriesAbsentIff | android/src/main/java/de/perfood/capacitorgooglefit/GoogleFitPlugin.java:287-298 | the calories key is absent iff no data point of the bucket has the calories type and a field |
| Flatten.LastCaloriesWin | android/src/main/java/de/perfood/capacitorgooglefit/GoogleFitPlugin.java:289-295 | a calories point met last overrides every earlier value with its last field value |
| Flatten.OtherDataSetsKeepCalories | android/src/main/java/de/perfood/capacitorgooglefit/GoogleFitPlugin.java:290-295 | a data set without calories points leaves the bucket's calories unchanged |
| Flatten.TwoBucketsOfTwoPoints | android/src/main/java/de/perfood/capacitorgooglefit/GoogleFitPlugin.java:156-173 | 2 buckets × 1 data set × 2 single-field points give 4 entries in bucket, then point, order |
| HistoryReads.GetSteps | android/src/main/java/de/perfood/capacitorgooglefit/GoogleFitPlugin.java:114-182 | no account: rejected, no request; a request is issued iff the prefix passes; vendor failure leaves the call pending; otherwise the listener's delivery |
| HistoryReads.GetWeight | android/src/main/java/de/perfood/capacitorgooglefit/GoogleFitPlugin.java:184-237 | the same for the raw weight read |
| HistoryReads.GetActivities | android/src/main/java/de/perfood/capacitorgooglefit/GoogleFitPlugin.java:239-313 | the same for the calories-by-activity-segment read |
| HistoryReads.StepsResolveCompletely | android/src/main/java/de/perfood/capacitorgooglefit/GoogleFitPlugin.java:161-178 | a resolved steps call carries all entries, one per field; otherwise it is a write-fault rejection |
| HistoryReads.ActivitiesResolveCompletely | android/src/main/java/de/perfood/capacitorgooglefit/GoogleFitPlugin.java:276-309 | a resolved activities call carries one entry per bucket; otherwise it is a write-fault rejection |
| Connection.Dispatch | android/src/main/java/de/perfood/capacitorgooglefit/GoogleFitPlugin.java:103-111 | the permissions code resolves; the sign-in code asks for missing scopes or resolves; any other code is ignored |
| Connection.Reaction | android/src/main/java/de/perfood/capacitorgooglefit/GoogleFitPlugin.java:101-111 | resolving resolves the saved call, or dereferences null when there is none; asking requests permissions with 19849 |
| Connection.GoogleFitPlugin.IsAllowed | android/src/main/java/de/perfood/capacitorgooglefit/GoogleFitPlugin.java:86-96 | allowed iff an account exists and it holds the scopes |
| Connection.GoogleFitPlugin.ConnectToGoogleFit | android/src/main/java/de/perfood/capacitorgooglefit/GoogleFitPlugin.java:72-84 | without an account it launches sign-in with 1337; with one it requests permissions; then it resolves the call |
| Connection.GoogleFitPlugin.HandleOnActivityResult | android/src/main/java/de/perfood/capacitorgooglefit/GoogleFitPlugin.java:98-112 | the effects are exactly the reaction of the dispatch table to the request code |
| Connection.ConnectResolvesBeforeSignIn | android/src/main/java/de/perfood/capacitorgooglefit/GoogleFitPlugin.java:73-83 | a connect with no account resolves the call right after launching sign-in |
| Connection.ConnectWithAccountThenPermissionResult | android/src/main/java/de/perfood/capacitorgooglefit/GoogleFitPlugin.java:80-104 | with an account, connect requests permissions without sign-in; a later permission result with no saved call dereferences null |
| Connection.SignInResultChainsToPermissions | android/src/main/java/de/perfood/capacitorgooglefit/GoogleFitPlugin.java:105-107 | a sign-in result for an account without scopes leads to a permission request |

## Left out

- The Google Sign-In and Fitness SDK calls (`getLastSignedInAccount`, `hasPermissions`, `requestPermissions`, `getSignInIntent`, `readData`) are foreign code. They are the fields `account` and `permitted`, the parameter `vendor`, and recorded effects. `hasPermissions` on a null account is taken to be false.
- `getFitnessSignInOptions` and `DataReadRequest.Builder` are vendor configuration. Only the parameters a request is built from are recorded (`ReadGate.ReadRequest`). The duplicated `TYPE_ACTIVITY_SEGMENT` scope (lines 57 and 60) has no effect here.
- `timestampToDate` and the internals of `SimpleDateFormat` depend on the library and the default time zone. Entries carry the millisecond values that would be formatted, and no format/parse round trip is stated.
- `asInt()` and `asFloat()` values are opaque (`FitnessData.Value`). No numeric property is stated.
- Only the value writes (`put("value", …)`, `put("calories", …)`) are taken to be able to throw `JSONException`. The string puts have non-null keys and do not throw.
- The asynchronous `Task` and listener machinery is reduced to an outcome (`Bridge.Reply`). A failed vendor task has no failure listener, so the call stays `Pending`.
- What Capacitor does with an exception that escapes a plugin method is not modelled (`Crashed`, `NullCallDereference`).
- How Capacitor links the call handed to `startActivityForResult` with `getSavedCall()` is framework behaviour. `savedCall` is an input that the plugin never sets.
- `PluginCall.getInt` and `getString` with a default return the default for an absent key or a value of another JSON type. The model's `None` covers both cases.
- `dumpDataSet` only logs.
- Java's 32-bit `int` (bucket size) and 64-bit `long` (timestamps) are not bounded in the model. The values come from the caller and are only compared with -1.
