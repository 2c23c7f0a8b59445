# Voice assistant command interpreter, in Dafny

This project models the command interpreter of a desktop voice assistant
(`main.py`). A transcribed command is lower-cased and classified into an
intent by a fixed chain of tests:

1. "open";
2. "close" or "terminate";
3. a command resembling "what is the time" or "tell the time";
4. one resembling "exit" or "quit";
5. "search" or "look up";
6. otherwise the command is not recognised.

The application name or search query is what remains of the command after the
keywords are removed with `str.replace` and the result is `strip()`ped. The
intent is then answered in one of these ways:

- `open_app` launches one of four known applications, chosen by substring
  lookup in a fixed order;
- `close_app` kills the first running process whose name matches the mapped
  process name;
- the clock is read out in `strftime("%I:%M %p")` form;
- the browser is pointed at a web search;
- the program ends.

Files:

- `wrappers.dfy`: `Option`.
- `pystr.dfy` (module `PyStr`): the Python string operations the interpreter
  relies on. These are `lower`, `capitalize`, the `in` substring test,
  `replace(p, "")` (left-to-right, non-overlapping) and `strip`, with their
  laws.
- `clock.dfy` (module `Clock`): the `%I:%M %p` time format and its inverse.
- `apps.dfy` (module `Apps`): `open_app`, with the table of launchers, and
  `close_app`, a method that walks the process listing.
- `commands.dfy` (module `Commands`): the intent classification, the same
  classification as a table of rules, and `process_command`, a method
  answering an intent with a reply and at most one effect.

The side effects are returned as values instead of being performed:

- the shell command `os.system` would run;
- the position of the process `proc.kill` would kill;
- the address `webbrowser.open` would open;
- the end of the program (`exit()`).

The fuzzy test `fuzz.partial_ratio(command, phrase) > 80` is a caller-supplied
predicate `similar`. The clock reading (hour 0-23, minute 0-59) and the names
of the running processes are inputs.

## Model

| member | source | states |
|---|---|---|
| PyStr.IsSpace | main.py:128 | the white space `strip()` removes: space, tab, line feed and carriage return among it, and never a letter |
| PyStr.Lower | main.py:124 | `str.lower()`: same length, each upper-case letter becomes its own lower-case letter, every other character unchanged, so no upper-case letter is left |
| PyStr.LowerIdempotent | main.py:74 | lower-casing twice is lower-casing once, so the second `lower()` in `open_app` and `close_app` changes nothing |
| PyStr.Capitalize | main.py:116-117 | `str.capitalize()`: same length; a lower-case first letter becomes its own upper-case letter, any other first character stays; each later upper-case letter becomes its own lower-case letter, every other later character stays |
| PyStr.CapitalizeWord | main.py:116-117 | a word of lower-case letters, capitalized, starts with an upper-case letter, keeps the rest, and lower-cases back to the word |
| PyStr.Contains | main.py:127 | Python's `p in s`, scanning `s` from the left; its meaning is fixed by `ContainsIffOccurs` |
| PyStr.ContainsIffOccurs | main.py:127 | the `in` test holds exactly when the pattern occurs at some position |
| PyStr.MissingCharNotContained | main.py:76-88 | a text lacking one of the pattern's characters does not contain the pattern |
| PyStr.SeparatedAbsent | main.py:128 | a pattern free of white space that is absent from two texts is absent from them joined by white space |
| PyStr.Remove | main.py:128 | `replace(p, "")` never lengthens the text |
| PyStr.RemoveAbsent | main.py:128 | `replace(p, "")` leaves a text without `p` unchanged |
| PyStr.RemoveAtLeftmost | main.py:128 | `replace(p, "")` keeps everything before the leftmost occurrence, drops it and goes on after it |
| PyStr.RemoveShrinks | main.py:128 | when `p` occurs, `replace(p, "")` removes at least `len(p)` characters |
| PyStr.Strip | main.py:128 | `strip()` yields a text with no white space at either end, empty exactly when the input is all white space |
| PyStr.StripUnique | main.py:128 | white space, a trimmed text, white space: `strip()` gives back exactly the text |
| Clock.Pad2 | main.py:149 | the zero padding of `%I` and `%M`: two digits whose decimal value is the number |
| Clock.Pad2RoundTrip | main.py:149 | the zero-padded two-digit field reads back as its number, and is the only spelling of it |
| Clock.Hour12 | main.py:149 | `%I` lies in 1..12 and agrees with the hour modulo 12 |
| Clock.Meridiem | main.py:149 | `%p` is "AM" exactly before noon and "PM" from noon on |
| Clock.FormatTime | main.py:149 | "HH:MM AM/PM": eight characters with the padded 12-hour hour, the padded minute and the suffix, which parse back to the 24-hour time |
| Clock.ParseTimeCanonical | main.py:149 | every string that parses as a reading is the one `FormatTime` prints, so the format is one-to-one |
| Clock.MidnightAndNoon | main.py:149 | hour 0 reads "12:00 AM" and hour 12 reads "12:00 PM" |
| Apps.FirstLauncher | main.py:76-90 | the position of the first key, in table order, that occurs in the name, and no earlier key occurs |
| Apps.OpenApp | main.py:70-93 | a launch command is issued exactly when some key occurs in the lower-cased name. It is the first such key's command and reply. Otherwise the reply is "Sorry, I couldn't find an application named <lower-cased name>." |
| Apps.KeyIsPlain | main.py:76-90 | every key is lower-case, trimmed and free of "open" |
| Apps.KeyIsFirstHit | main.py:76-90 | no key occurs inside a key listed after it |
| Apps.KnownKeyOpens | main.py:74-90 | each application named by its own key gets its own reply and launch command |
| Apps.EarlierKeyWins | main.py:76-78 | "word notepad" opens Notepad: the earlier key wins wherever it occurs |
| Apps.SameProcess | main.py:114 | a running process matches a process name when both have the same length and agree letter by letter ignoring case |
| Apps.FirstRunning | main.py:113-114 | the first process in listing order whose name lower-cases like the mapped name, and none before it |
| Apps.Victim | main.py:100-117 | a process is killed only for an exact key of the process map, and it is the first matching process in listing order; with no victim, the name is unknown or nothing matches |
| Apps.ProcessMapKeysLower | main.py:103-108 | the names of the process map are non-empty words of lower-case letters |
| Apps.CapitalizedNames | main.py:116-117 | the four names print as "Notepad", "Calculator", "Powerpoint" and "Word" |
| Apps.CloseReply | main.py:116-119 | an unknown name is repeated as given in "I don't know how to close <name>."; a known name opens the reply with its first letter upper-case and lower-cases back to the name, followed by " closed successfully." exactly when a process was killed and " is not running." otherwise |
| Apps.CloseApp | main.py:96-119 | the loop kills the victim and nothing else. The reply is "I don't know how to close <name>.", "<Name> closed successfully." or "<Name> is not running." |
| Commands.Classify | main.py:123-175 | the intent is OpenApp exactly when the lower-cased command contains "open". Every extracted argument is trimmed. An application to open is at least 4 characters shorter than the command, one to close at least 5, and a search query at least 6 |
| Commands.CloseShrinks | main.py:139 | removing "close" then "terminate" from a command holding either takes out at least five characters |
| Commands.SearchShrinks | main.py:164 | removing "search for", "look up", "search" from a command holding "search" or "look up" takes out at least six characters |
| Commands.FirstRuleWins | main.py:127-172 | in a rule table, the first rule that fires decides, whatever later rules would say |
| Commands.NoRuleFires | main.py:172-175 | when no rule fires, the command is not recognised |
| Commands.TableDecides | main.py:127-175 | the table of five rules, run on a lower-cased command, gives the verdict of the test chain |
| Commands.ClassifyFollowsRules | main.py:123-175 | the if-chain of `process_command` equals the rule table read top to bottom |
| Commands.ClassifyIgnoresCase | main.py:124 | classification depends only on the lower-cased command |
| Commands.OpenTrailingName | main.py:127-130 | "open", white space and a trimmed name free of "open" is a request to open exactly that name |
| Commands.OpenRemovesEveryOccurrence | main.py:128 | every "open" is removed, not only the command word: "open openoffice" asks to open "office" |
| Commands.KeywordThenArgument | main.py:128 | a keyword, white space and a trimmed argument free of the keyword leave exactly the argument |
| Commands.SearchForPassesEarlierTests | main.py:127-162 | "search for" plus a query free of the earlier keywords fails the "open" and "close"/"terminate" tests and passes the "search" test |
| Commands.SearchForArgument | main.py:164 | the three removals and `strip()` applied to "search for", white space and a clean query leave the query |
| Commands.SearchForQuery | main.py:162-166 | such a command, resembling neither time nor exit phrases, is a search for exactly the query |
| Commands.TimeReply | main.py:149-150 | "The time is " followed by the eight-character reading, which parses back to the clock time |
| Commands.Respond | main.py:127-175 | see the list below |
| Commands.ProcessCommand | main.py:123-175 | the method's reply and effect are those of `Respond` on `Classify` of the command; a named close request runs `close_app`'s loop |
| Commands.OpenWins | main.py:127-134 | a command holding "open" is an open request: its reply is `open_app`'s or the request for a name, and its only possible effect is a launch, so it never closes, searches, reads the clock or exits |
| Commands.OpenKnownApp | main.py:127-130 | "open", white space and a known key launch that application with its reply |

`Commands.Respond` states:

- the only silent case is an empty search query;
- only Exit ends the program, with "Goodbye, see you again!";
- an empty name to open or close gives "I didn't catch the application name. Please try again." and no effect;
- a named open request gets `open_app`'s reply and launches its command, if any;
- a named close request gets `close_app`'s reply for that name. It kills exactly when `close_app` finds a victim, and then the first process in listing order that matches the mapped name;
- a launch comes only from an open request;
- a non-empty query gives "Searching for <query> on the web." and opens the search address with the query appended unencoded;
- a time query gets "The time is " and the reading, which parses back to the clock time, and has no effect;
- an unrecognised command gives "Command not recognized. Please try again."

## Left out

- `speak`, `_speak_worker` and the speech thread (main.py:33-49) are left out. They are speech output and concurrency.
- `reduce_noise` (main.py:52-66) is left out. It is floating-point signal processing.
- Microphone capture, `recognize_google` and its error handling are left out. They are device and network I/O.
- The `main` loop and its command-line flags are left out. They are I/O plumbing.
- `fuzz.partial_ratio` is a library call. Only its thresholded verdict is modelled, as the `similar` parameter.
- A `proc.kill()` that fails (the process has gone, or access is denied) raises out of `process_command` and `main` and ends the program (main.py:115). The model always reports "<Name> closed successfully." once a matching process is found.
- `os.system`, `proc.kill`, `webbrowser.open` and `exit()` are not performed. The model returns the command, the process position, the address or the `Terminate` effect instead.
- `print` is not modelled. The printed text is the same as the returned reply.
- `datetime.now()` is not modelled. Its hour and minute are inputs.
- `psutil.process_iter` is modelled as a sequence of process names. Names are assumed present, where `psutil` can yield `None`. Process ids are not modelled, and a kill is reported as a position in that sequence rather than changing a process table.
- PyStr.Lower: lower-cases ASCII letters only. Python's `str.lower` also lower-cases non-ASCII letters.
- PyStr.Capitalize: changes the case of ASCII letters only, for the same reason.
- PyStr.Remove: its own contract states only that the result is no longer than the input. What the removal leaves is stated by `RemoveAbsent`, `RemoveAtLeftmost` and `RemoveShrinks`.
- Behaviour of the code that the model keeps as it is:
  - The search address carries the query without percent-encoding (main.py:169).
  - The time reply has no final period (main.py:150).
  - The "couldn't find" reply of `open_app` names the lower-cased name (main.py:74, main.py:93).
  - An "open" command's argument loses every occurrence of "open", not only the command word (main.py:128; see `Commands.OpenRemovesEveryOccurrence`).
