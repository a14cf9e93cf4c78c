# mail-notifier, modelled in Dafny

`mail_notifier.py` polls the Claws Mail client with `claws-mail --status`
every ten seconds and pops up a desktop notification when the number of new
or unread messages has gone up since the previous poll. This project models
its decision logic:

- `mail.dfy` (module `Mail`): the `mail_info` value with its three counters
  and its `>` (`Gt`), `-` (`Sub`) and `as_tuple` (`AsTuple`) operations. The
  field `new` is called `newCount` because `new` is a Dafny keyword.
- `text.dfy` (module `Text`): Python's `str.strip()` and `str.split()` with
  no arguments, over Python's whitespace characters, with `Join` as the
  inverse of `Split` on words.
- `ints.dfy` (module `Ints`): `int(word)` on one word, and the `%d`
  conversion (`FormatInt`), proved to be read back by `int`.
- `status.dfy` (module `Status`): the parse in `get_number_mail`. The
  output of the status command is a parameter. The result is `NotRunning`
  (the source's `None`), a `Reading`, or the exception the parse raises
  (`ValueError` for a word `int` refuses, `IndexError` for fewer than three
  numbers).
- `notifier.dfy` (module `Notifier`): the message text of `notify`.
- `watch.dfy` (module `Watch`): one cycle of `main`'s loop as the pure
  function `Step`, the loop over a finite sequence of status results as the
  specification `Run`, and the imperative loop `Watch`, which keeps
  `prev_number` in a local variable and is proved equal to `Run`.

The model follows the code. The code has none of the following behaviours,
and the model adds none of them:
- a "no data" outcome that keeps the baseline;
- a fetch timeout;
- notification failure that keeps the baseline;
- subtracting the new count from the unread count;
- a clean exit status.
In the code every cycle replaces the baseline with the current reading, and
both differences are reported as they are. So two new unread messages read
"2 new and 2 unread" (`Watch.NewMailCountsAsUnreadToo`). A status output
that does not parse raises out of `main` and ends the program; `Run` stops
at that point and records the exception.

## Model

| member | source | states |
|---|---|---|
| `Mail.AsTuple` | mail_notifier.py:58-63 | the tuple is (new, unread, total) in that order: rebuilding a `mail_info` from it gives back the same value |
| `Mail.Sub` | mail_notifier.py:79-88 | `a - b` is exact in each field: adding `b` back gives `a` in new, unread and total; a reading minus itself is all zeros |
| `Mail.Gt` | mail_notifier.py:66-77 | `a > b` is the triple of field-wise strict comparisons, each true exactly when that field of `a - b` is positive; a reading compared with itself gives three false values |
| `Text.TrimStartRemovesSpace` | mail_notifier.py:100 | the leading-whitespace trim removes exactly a whitespace prefix and keeps the rest of the string unchanged |
| `Text.TrimEndRemovesSpace` | mail_notifier.py:100 | the trailing-whitespace trim removes exactly a whitespace suffix, and what is left is empty or ends with a non-space |
| `Text.Strip` | mail_notifier.py:100 | `strip()` never lengthens its input, and what it leaves neither starts nor ends with whitespace; that it removes exactly whitespace around the text is `Text.StripSplits` |
| `Text.StripEmptyIffAllSpace` | mail_notifier.py:100 | `strip()` is empty exactly when the input is empty or all whitespace |
| `Text.StripSplits` | mail_notifier.py:100 | every string is its stripped text between a whitespace prefix and a whitespace suffix |
| `Text.StripPadded` | mail_notifier.py:100 | adding whitespace around a string does not change its `strip()` |
| `Text.WordLenStopsAtSpace` | mail_notifier.py:103 | the first word of a string runs up to, and not including, the first whitespace character |
| `Text.Split` | mail_notifier.py:103 | `split()` yields at most one word per character of its input; that the words are whitespace-free runs and the inverse of `Join` is carried by `Text.SplitYieldsTokens` and `Text.SplitJoin` |
| `Text.SplitYieldsTokens` | mail_notifier.py:103 | every word `split()` yields is non-empty and contains no whitespace |
| `Text.SplitPadded` | mail_notifier.py:103 | adding whitespace around a string does not change its `split()` |
| `Text.SplitAllSpace` | mail_notifier.py:103 | empty or all-whitespace text splits into no words |
| `Text.SplitJoin` | mail_notifier.py:103 | splitting words joined by single spaces gives back exactly those words |
| `Ints.ParseInt` | mail_notifier.py:103 | `int` accepts only an optional sign followed by one or more digits, and the sign of the result follows the written sign |
| `Ints.ParseSignedDigits` | mail_notifier.py:103 | `int` of an optional sign followed by one or more digits is the decimal value of the digits, negated after '-' |
| `Ints.FormatNat` | mail_notifier.py:114 | the decimal digits of a natural number denote that number, and have no leading zero: the only text starting with '0' is "0" |
| `Ints.FormatInt` | mail_notifier.py:114 | `'%d' % n` is a single word that `int` reads back as `n`: digits without a leading zero for `n >= 0`, '-' followed by such digits for `n < 0`, never a '+' |
| `Status.ParseAll` | mail_notifier.py:103 | `map(int, words)` succeeds exactly when every word is a number, and then yields them in order; otherwise it fails at the first word `int` refuses |
| `Status.GetNumberMail` | mail_notifier.py:100-104 | the result is "not running" exactly when the stripped output is the sentinel; it is a reading exactly when the output is not the sentinel, every word is a number and there are at least three, and then the counters are the first three numbers, any further ones ignored; it is a `ValueError` exactly when some word is not a number, and then it carries the first word `int` refuses; it is an `IndexError` exactly when all words are numbers but fewer than three |
| `Status.GetNumberMailPadded` | mail_notifier.py:100-104 | leading and trailing whitespace never changes the outcome |
| `Status.BlankOutputFails` | mail_notifier.py:103-104 | empty or all-whitespace output raises `IndexError` at the first index; it is not treated as "not running" |
| `Status.NotRunningWords` | mail_notifier.py:36 | the sentinel splits into the words "0", "Claws", "Mail", "not", "running." |
| `Status.NotRunningNumbers` | mail_notifier.py:36 | of those words "0" is a number and "Claws" is not |
| `Status.NotRunningTextIsNotNumeric` | mail_notifier.py:100-103 | any output whose stripped text is the sentinel would fail `int` at its second word, so the sentinel check is what keeps it from raising |
| `Status.StatusRoundTrip` | mail_notifier.py:103-104 | output made of three counters and any further numbers, separated by spaces, reads back as exactly those three counters |
| `Notifier.Message` | mail_notifier.py:114 | the message is the seven words `<new> new and <unread> unread mail arrived` joined by single spaces, and splitting it gives those seven words back |
| `Notifier.MessageInjective` | mail_notifier.py:114 | two notifications with the same message carry the same two counts |
| `Watch.Max0` | mail_notifier.py:134-135 | `max(0, x)` is the smallest non-negative number not below `x` |
| `Watch.Grew` | mail_notifier.py:132 | `any((curr > prev)[:2])` holds exactly when the new or the unread count went up; the total is not consulted |
| `Watch.Step` | mail_notifier.py:131-139 | a notification is sent exactly when both readings are present and new or unread grew; it carries `max(0, Δnew)` and `max(0, Δunread)`, both non-negative and at least one positive; the next baseline is the current reading in every case |
| `Watch.NewMailCountsAsUnreadToo` | mail_notifier.py:132-137 | from (0,0,0) to (2,2,10) notifies (2,2); from (1,5,20) to (1,7,20) notifies (0,2); a growth of the total alone notifies nothing |
| `Watch.Observed` | mail_notifier.py:100-104 | a status yields a baseline exactly when it is a reading, and then the baseline is that reading; "not running" yields `None` |
| `Watch.Advance` | mail_notifier.py:129-139 | one cycle: an exception is recorded and keeps the baseline and the notifications as they were; any cycle adds at most one notification, after the ones already sent, which it never changes (that a cycle that did not raise takes its reading as the baseline is stated by `Watch.Run`) |
| `Watch.Run` | mail_notifier.py:126-139 | the loop from `prev_number = None` over a finite sequence of results; after a cycle that did not raise, the baseline is that cycle's reading, `None` when the client was not running |
| `Watch.CrashIsFinal` | mail_notifier.py:128-129 | once a parse has raised, the loop is over and later outputs change nothing |
| `Watch.ComparesConsecutiveReadings` | mail_notifier.py:129-139 | each cycle after the first decides by comparing its reading with the reading of the cycle just before it |
| `Watch.NoNotificationAfterRestart` | mail_notifier.py:131-139 | the first cycle after a "not running" result never notifies |
| `Watch.CrashesIffException` | mail_notifier.py:128-129 | the loop ends with an exception exactly when one of the results it reached is one |
| `Watch.SentAreGrowth` | mail_notifier.py:132-137 | every notification sent has non-negative counts, at least one of them positive |
| `Watch.FewerNotificationsThanCycles` | mail_notifier.py:126-137 | the baseline starts as `None`, so the first cycle never notifies and there are fewer notifications than cycles |
| `Watch.Watch` | mail_notifier.py:123-140 | the loop with `prev_number` as a local variable computes exactly `Run` of the classified outputs, and its final baseline is the last reading |

## Left out

- `subprocess.check_output(['claws-mail', '--status'])` (line 98) is process I/O: its output is a parameter, and its `CalledProcessError` on a non-zero exit is not modelled.
- The `notify2` calls (`init`, `Notification('New Mail', …)`, `set_category('email.arrived')`, `show`) belong to a desktop notification library: sending is recorded as a `Notification` value, and only the message text is modelled. An exception from them (from `init` at line 124, or from `show()` at line 120 when no notification service is reachable) ends `main`; the model always goes on to the next cycle.
- `time.sleep(SLEEP_TIME)` and the endless `while True`: the loop runs over a finite sequence of status outputs.
- `__repr__` and `__str__` only format values for debugging.
- Ints.ParseInt: accepts an optional `+` or `-` followed by ASCII digits only, not the underscores between digits or the non-ASCII decimal digits Python's `int` also accepts. Whitespace inside a word cannot occur after `split()`. It models `int` of Python 3.4 to 3.10, which reads words of any length: since Python 3.11 (and the 3.7–3.10 security releases that backported it) `int` raises `ValueError` on more than 4300 digits (`sys.get_int_max_str_digits()`), which the model does not.
- Text.IsSpace: is the whitespace set of Python 3.4 and later; in Python 3.0 to 3.3, U+180E (MONGOLIAN VOWEL SEPARATOR) was whitespace too, and is not here.
- Ints.FormatInt: likewise writes numbers of any size; under the same 4300-digit limit `'%d'` raises `ValueError` for larger values, which the model does not.
- An exception ends `main` with a Python traceback and a non-zero exit status; the model records which exception it was and stops, and does not model the exit itself.
