# Java Simon: console value formatting and the SimonManager switch

This project models two small pieces of Java Simon, a monitoring library whose
"Simons" (counters and stopwatches) are named hierarchically.

- **`ValueFormatter`** (module `Console`, with `Decimal` and `JavaLang`) is the
  console's base formatter. It turns attribute values of Simons into text.
  Values that only mark "nothing observed yet" all print as the empty text of
  `formatNull()`. These are the `Integer`/`Long` `MIN_VALUE` and `MAX_VALUE`
  sentinels, negative durations, timestamps that are not positive, nulls, and
  `Number` classes it does not recognise. A Java `Number` is the variant
  `NNull | NInt | NLong | NFloat | NDouble | NOther`. Java's `int`/`long`
  are the newtypes `Int32`/`Int64`. A nullable reference is `Nullable<T>`.
  `Integer.toString`/`Long.toString` are written out as `Decimal.DecimalText`.
  Its partner is the parser `Decimal.ParseDecimal`, and the round trip between
  them is proved. `TimeFormatType.format` and `DateFormat.format` are function
  values, so every property holds whatever those library formatters compute.
- **`SimonManager`** (module `SimonManager`) is the static facade. It holds one
  piece of state: which manager is current, the enabled one or the disabled
  one. Every public call is forwarded to that manager. Each manager's own
  behaviour is an opaque `Backend` function from its state and a call to its
  next state and answer. The facade is a `World` made of the switch and the
  two managers' states. `Run` replays a sequence of `enable`, `disable` and
  forwarded calls. The constants `HIERARCHY_DELIMITER` (`"."`) and
  `ROOT_SIMON_NAME` (`""`, SimonManager.java lines 19 and 24) are the
  constants `HierarchyDelimiter` and `RootSimonName`.

## Model

| member | source | states |
|---|---|---|
| Console.DefaultFormatter | console/embed/src/main/java/org/javasimon/console/ValueFormatter.java:17-21 | a new formatter formats durations as MILLISECOND (not PRESENT) and uses the given date format |
| Console.DefaultFormatterTime | console/embed/src/main/java/org/javasimon/console/ValueFormatter.java:17 | a new formatter prints a valid non-negative duration as the MILLISECOND text of the time formatter, through formatNumber(String) |
| Console.FormatNull | console/embed/src/main/java/org/javasimon/console/ValueFormatter.java:53-55 | the text used for every rejected value is empty |
| Console.FormatString | console/embed/src/main/java/org/javasimon/console/ValueFormatter.java:59-61 | a non-null string is returned unchanged and null gives the null text; the result is empty exactly when the argument is null or empty |
| Console.FormatEnum | console/embed/src/main/java/org/javasimon/console/ValueFormatter.java:65-67 | a null enum constant gives the empty text; any other gives its name() |
| Console.FormatNumberText | console/embed/src/main/java/org/javasimon/console/ValueFormatter.java:71-73 | the protected formatNumber(String) overload behaves exactly like formatString |
| Console.IsValidNumber | console/embed/src/main/java/org/javasimon/console/ValueFormatter.java:84-106 | null and unknown Number classes are never valid; an Integer is valid exactly when it is neither Integer.MIN_VALUE nor MAX_VALUE, a Long exactly when it is neither Long bound |
| Console.NumberText | console/embed/src/main/java/org/javasimon/console/ValueFormatter.java:79 | the toString text of an Integer or Long is canonical decimal (no leading zero, no "-0") that parses back to the number |
| Console.FormatNumber | console/embed/src/main/java/org/javasimon/console/ValueFormatter.java:78-106 | an Integer prints empty exactly when it is Integer.MIN_VALUE or MAX_VALUE, and as its decimal text otherwise; the same holds for a Long with the Long bounds; null and unknown Number classes print empty; anything isValidNumber rejects prints empty |
| Console.FormatNumberPartition | console/embed/src/main/java/org/javasimon/console/ValueFormatter.java:78-106 | every valid number prints as its toString and every invalid one as the empty text; outside Float/Double, the empty text means the number was rejected |
| Console.FormatNumberRoundTrip | console/embed/src/main/java/org/javasimon/console/ValueFormatter.java:78-92 | the text printed for a valid Integer or Long is canonical decimal that parses back to the same number |
| Decimal.DecimalText | console/embed/src/main/java/org/javasimon/console/ValueFormatter.java:79 | the toString of an Integer or Long is non-empty, starts with '-' exactly for negatives, is all digits with no leading zero otherwise, and is exactly "0" for zero |
| Decimal.DecimalRoundTrip | console/embed/src/main/java/org/javasimon/console/ValueFormatter.java:79 | the toString text of any integer is canonical decimal (no leading zero, no "-0") and parsing it gives back that integer |
| Decimal.DecimalTextInjective | console/embed/src/main/java/org/javasimon/console/ValueFormatter.java:79 | two numbers print the same text exactly when they are equal |
| Console.PostFormatTime | console/embed/src/main/java/org/javasimon/console/ValueFormatter.java:110-116 | in both the PRESENT branch and the other branch, null becomes the empty text and a string passes through unchanged |
| Console.PostFormatTimeIgnoresFormat | console/embed/src/main/java/org/javasimon/console/ValueFormatter.java:110-116 | the two branches of postFormatTime give the same result for every input |
| Console.FormatTime | console/embed/src/main/java/org/javasimon/console/ValueFormatter.java:121-124 | a null, sentinel or negative Long gives the empty text whatever the time format; a valid non-negative Long gives exactly timeFormat.format(l), null-guarded |
| Console.FormatTimeEmptyIff | console/embed/src/main/java/org/javasimon/console/ValueFormatter.java:121-124 | formatTime is empty exactly when the Long is rejected or the time formatter yields null or empty text |
| Console.FormatEnumEmptyIff | console/embed/src/main/java/org/javasimon/console/ValueFormatter.java:65-67 | formatEnum is empty exactly when the constant is null or its name is empty |
| Console.FormatDate | console/embed/src/main/java/org/javasimon/console/ValueFormatter.java:136-138 | a null Date gives the empty text; any other gives the date formatter's text, null-guarded |
| Console.FormatTimestamp | console/embed/src/main/java/org/javasimon/console/ValueFormatter.java:143-145 | a null or non-positive Long gives the empty text; a positive one gives the date formatter's text for that instant |
| Console.FormatDateEmptyIff | console/embed/src/main/java/org/javasimon/console/ValueFormatter.java:136-138 | formatDate(Date) is empty exactly when the date is null or the date formatter yields null or empty text |
| Console.FormatTimestampEmptyIff | console/embed/src/main/java/org/javasimon/console/ValueFormatter.java:143-145 | for a positive Long, formatDate(Long) is formatDate(Date) of that instant; the result is empty exactly when the Long is null or not positive or the date formatter yields null or empty text |
| Console.MaxLongTimeAndTimestamp | console/embed/src/main/java/org/javasimon/console/ValueFormatter.java:121-145 | Long.MAX_VALUE is rejected as a duration but formatted as a timestamp |
| Console.FormatObject | console/embed/src/main/java/org/javasimon/console/ValueFormatter.java:150-158 | null gives the empty text, a String gives itself, anything else gives its toString() |
| Console.FormatObjectOnStrings | console/embed/src/main/java/org/javasimon/console/ValueFormatter.java:150-158 | on a String reference, formatObject and formatString agree |
| SimonManager.HierarchyDelimiter | src/org/javasimon/SimonManager.java:19 | the separator between levels of a hierarchical Simon name is "." |
| SimonManager.RootSimonName | src/org/javasimon/SimonManager.java:24 | the root Simon's name is the empty string |
| SimonManager.IsEnabled | src/org/javasimon/SimonManager.java:121-123 | isEnabled() holds exactly when the current manager is not the disabled one; the switch has exactly two states |
| SimonManager.Initial | src/org/javasimon/SimonManager.java:26 | the facade starts on the enabled manager, so isEnabled holds |
| SimonManager.InitiallyEnabled | src/org/javasimon/SimonManager.java:26 | without any enable or disable, any number of forwarded calls leaves isEnabled true |
| SimonManager.Enable | src/org/javasimon/SimonManager.java:105-107 | after enable(), isEnabled is true and neither manager's state changed |
| SimonManager.Disable | src/org/javasimon/SimonManager.java:112-114 | after disable(), isEnabled is false and neither manager's state changed |
| SimonManager.SwitchLastCallWins | src/org/javasimon/SimonManager.java:105-123 | enable and disable are idempotent, the later of two wins, and each is a no-op exactly when the switch already has that value |
| SimonManager.LastSwitchWins | src/org/javasimon/SimonManager.java:105-123 | after any history, isEnabled is decided by the last enable or disable, however many forwarded calls follow it |
| SimonManager.Forward | src/org/javasimon/SimonManager.java:47-151 | a forwarded call is answered by the current manager alone; only that manager's state changes and the switch does not move |
| SimonManager.CallsKeepSwitch | src/org/javasimon/SimonManager.java:47-151 | any sequence of forwarded calls leaves the switch where it was and yields one answer per call |
| SimonManager.RunAppend | src/org/javasimon/SimonManager.java:105-114 | proof infrastructure for LastSwitchWins, about the model's own replay `Run`: replaying two sequences of facade actions one after the other is the same as replaying their concatenation |
| SimonManager.DisabledCallsLeaveEnabledManager | src/org/javasimon/SimonManager.java:145-151 | while disabled, no call through the facade, clear included, reaches the enabled manager, so its state after enable() is the state it had before |
| SimonManager.ClearWhileDisabledIsIgnored | src/org/javasimon/SimonManager.java:145-151 | disable(), clear(), enable() leaves the enabled manager's state exactly as it was |

## Left out

- Float and Double validity (ValueFormatter.java:93-102) is not modelled as floating point. A Float or Double carries its toString text and a flag `isMarker`. The flag stands for "compares == to MIN_VALUE, MAX_VALUE or an infinity". The `== NaN` test in the source is always false, so NaN is never rejected. The flag simply leaves NaN unmarked.
- Console.FormatNumberPartition: for Float/Double it does not state that the empty text implies rejection, because their toString text is opaque here.
- `formatTime(Double)` (ValueFormatter.java:129-132): floating-point logic.
- `TimeFormatType.format` and `DateFormat.format` are library or outside code. They are function parameters. The default `SimpleDateFormat("yyyy-MM-dd HH:mm:ss")` pattern is not modelled. The default `MILLISECOND` time format is the constant `DefaultTimeFormat`, used by `DefaultFormatter`, which takes the date format as a parameter.
- The getters and setters of ValueFormatter (lines 26-49) are the fields of the `ValueFormatter` datatype. Setting one is a datatype update.
- A null time or date formatter is not modelled. Java accepts `setTimeFormat(null)` and `setDateFormat(null)` (lines 33-35, 47-49). After that, `formatTime` on a valid non-negative Long throws NullPointerException at line 122, and `formatDate` on a non-null Date throws at line 137. Rejected values still give the empty text. The model's fields cannot be null, so this exception path is absent.
- The class is meant to be subclassed for other export formats (lines 8-9). `formatNull`, `formatString`, `formatNumber(String)` and `formatDate(Date)` can be overridden there. The model fixes them to the base-class bodies, so every property above is about the base class.
- Console.PostFormatTimeIgnoresFormat: holds for the base class only. A subclass may override `formatString` and `formatNumber(String)` differently, and then the PRESENT branch and the other branch differ.
- The static initializer of SimonManager (lines 28-35) is not modelled. It calls `clear()` and then loads the configuration file, which is file I/O and logging.
- `generateName` (SimonManager.java:98-100) is not modelled. The facade only forwards it to the current manager, and how a name is generated is manager code outside this model.
- Changes made through a Simon reference obtained earlier are not modelled. A Counter or Stopwatch handed out before `disable()` is a live object of the enabled manager, and callers can keep changing it while the switch is off. The lemmas only say that no call through the facade reaches the enabled manager.
- Everything inside `EnabledManager` and `DisabledManager` is outside this model, because the facade only forwards to it. This covers the registry, the hierarchy, replacing Unknown Simons, and what clear does. So clear being "ignored" by the disabled manager is stated only as "it cannot reach the enabled manager's Simons".
- Memory visibility of the non-volatile static `manager` field is not modelled. It is a concurrency concern.
