/**
  Launching and closing the known desktop applications (`open_app` and
  `close_app`). Running a shell command and killing a process are not
  performed: the model returns the command that would be issued and the
  position, in the process listing, of the process that would be killed.
 */
module Apps {
  import opened Wrappers
  import opened PyStr

  // ---------------------------------------------------------------------------
  // open_app

  /** One branch of `open_app`: the name fragment it tests for, the shell
      command it issues and the reply it gives. */
  datatype Launcher = Launcher(key: string, command: string, reply: string)

  /** The branches of `open_app`, in the order they are tested. */
  const Launchers: seq<Launcher> := [
    Launcher("notepad", "start notepad", "Notepad opened."),
    Launcher("calculator", "start calc", "Calculator opened."),
    Launcher("powerpoint", "start powerpnt", "PowerPoint opened."),
    Launcher("word", "start winword", "Word opened.")
  ]

  /** What `open_app` answers and the launch command it issues, if any. */
  datatype OpenResult = OpenResult(response: string, command: Option<string>)

  /** Launcher `k` is the first whose key occurs in `name`. */
  predicate FirstHit(name: string, k: int) {
    0 <= k < |Launchers| && Contains(name, Launchers[k].key)
    && forall j :: 0 <= j < k ==> !Contains(name, Launchers[j].key)
  }

  /** The first launcher, from position `i` on, whose key occurs in `name`. */
  function FirstLauncher(name: string, i: nat): (k: Option<nat>)
    requires i <= |Launchers|
    ensures k.Some? ==> i <= k.value < |Launchers| && Contains(name, Launchers[k.value].key)
    ensures forall j :: i <= j < (if k.Some? then k.value else |Launchers|) ==> !Contains(name, Launchers[j].key)
    decreases |Launchers| - i
  {
    if i == |Launchers| then None
    else if Contains(name, Launchers[i].key) then Some(i)
    else FirstLauncher(name, i + 1)
  }

  /** `open_app(app_name)`. The lower-cased name is matched by substring against
      "notepad", "calculator", "powerpoint" and "word" in that order; the first
      key found decides the reply and the launch command. When no key is found
      the reply names the lower-cased name and nothing is launched. */
  function OpenApp(appName: string): (r: OpenResult)
    ensures r.command.Some? <==> exists j :: 0 <= j < |Launchers| && Contains(Lower(appName), Launchers[j].key)
    ensures r.command.Some? ==>
      exists k :: FirstHit(Lower(appName), k) && r == OpenResult(Launchers[k].reply, Some(Launchers[k].command))
    ensures r.command.None? ==>
      r.response == "Sorry, I couldn't find an application named " + Lower(appName) + "."
  {
    var name := Lower(appName);
    match FirstLauncher(name, 0)
    case Some(k) =>
      assert FirstHit(name, k);
      OpenResult(Launchers[k].reply, Some(Launchers[k].command))
    case None =>
      OpenResult("Sorry, I couldn't find an application named " + name + ".", None)
  }

  /** A lower-case key without white space is its own lower-cased, stripped form. */
  lemma PlainWord(key: string)
    requires forall i :: 0 <= i < |key| ==> IsLower(key[i])
    ensures Lower(key) == key && Trimmed(key)
  {
  }

  /** The keys are lower-case, hold no white space at either end and do not
      contain "open", so "open <key>" names exactly the key. */
  lemma KeyIsPlain(k: nat)
    requires k < |Launchers|
    ensures var key := Launchers[k].key;
      Lower(key) == key && Trimmed(key) && !Contains(key, "open")
  {
    if k == 0 {
      NotepadIsPlain();
    } else if k == 1 {
      CalculatorIsPlain();
    } else if k == 2 {
      PowerPointIsPlain();
    } else {
      WordIsPlain();
    }
  }

  lemma NotepadIsPlain()
    ensures Lower("notepad") == "notepad" && Trimmed("notepad") && !Contains("notepad", "open")
  {
    var key := "notepad";
    PlainWord(key);
    NotepadLetters();
    MissingCharNotContained(key[2..], "open", 'o');
    AbsentPastPrefix(key, "open", 2);
  }

  lemma NotepadLetters()
    ensures 'o' !in "notepad"[2..]
    ensures forall j :: 0 <= j < 2 ==> !("open" <= "notepad"[j..])
  {
    var key := "notepad";
    assert key[2..] == "tepad";
    forall j | 0 <= j < 2
      ensures !("open" <= key[j..])
    {
      assert key[j] != 'o' || key[j + 1] != 'p';
    }
  }

  lemma CalculatorIsPlain()
    ensures Lower("calculator") == "calculator" && Trimmed("calculator") && !Contains("calculator", "open")
  {
    PlainWord("calculator");
    LacksP("calculator");
    MissingCharNotContained("calculator", "open", 'p');
  }

  lemma PowerPointIsPlain()
    ensures Lower("powerpoint") == "powerpoint" && Trimmed("powerpoint") && !Contains("powerpoint", "open")
  {
    var key := "powerpoint";
    PlainWord(key);
    PowerPointLetters();
    MissingCharNotContained(key[7..], "open", 'o');
    AbsentPastPrefix(key, "open", 7);
  }

  lemma PowerPointLetters()
    ensures 'o' !in "powerpoint"[7..]
    ensures forall j :: 0 <= j < 7 ==> !("open" <= "powerpoint"[j..])
  {
    var key := "powerpoint";
    assert key[7..] == "int";
    forall j | 0 <= j < 7
      ensures !("open" <= key[j..])
    {
      assert key[j] != 'o' || key[j + 1] != 'p';
    }
  }

  lemma WordIsPlain()
    ensures Lower("word") == "word" && Trimmed("word") && !Contains("word", "open")
  {
    PlainWord("word");
    LacksP("word");
    MissingCharNotContained("word", "open", 'p');
  }

  lemma LacksP(key: string)
    requires key == "calculator" || key == "word"
    ensures 'p' !in key
  {
  }

  lemma CalculatorIsFirstHit()
    ensures FirstHit("calculator", 1)
  {
    LacksP("calculator");
    MissingCharNotContained("calculator", "notepad", 'p');
  }

  lemma PowerPointLacks()
    ensures 'd' !in "powerpoint" && 'c' !in "powerpoint"
  {
  }

  lemma PowerPointIsFirstHit()
    ensures FirstHit("powerpoint", 2)
  {
    PowerPointLacks();
    MissingCharNotContained("powerpoint", "notepad", 'd');
    MissingCharNotContained("powerpoint", "calculator", 'c');
  }

  lemma WordLacks()
    ensures 'p' !in "word" && 'c' !in "word"
  {
  }

  lemma WordIsFirstHit()
    ensures FirstHit("word", 3)
  {
    WordLacks();
    MissingCharNotContained("word", "notepad", 'p');
    MissingCharNotContained("word", "calculator", 'c');
    MissingCharNotContained("word", "powerpoint", 'p');
  }

  /** The first key of the table that occurs wins, wherever it occurs in the
      name: "word notepad" opens Notepad. */
  lemma EarlierKeyWins()
    ensures OpenApp("word notepad") == OpenResult("Notepad opened.", Some("start notepad"))
  {
    var name := "word notepad";
    assert Lower(name) == name;
    assert OccursAt(name, "notepad", 5);
    ContainsIffOccurs(name, "notepad");
  }

  /** No key occurs inside a key listed after it. */
  lemma KeyIsFirstHit(k: nat)
    requires k < |Launchers|
    ensures FirstHit(Launchers[k].key, k)
  {
    if k == 1 {
      CalculatorIsFirstHit();
    } else if k == 2 {
      PowerPointIsFirstHit();
    } else if k == 3 {
      WordIsFirstHit();
    }
  }

  /** Each application of the table, named by its own key, is the one launched. */
  lemma KnownKeyOpens(k: nat)
    requires k < |Launchers|
    ensures OpenApp(Launchers[k].key) == OpenResult(Launchers[k].reply, Some(Launchers[k].command))
  {
    KeyIsPlain(k);
    KeyIsFirstHit(k);
  }

  // ---------------------------------------------------------------------------
  // close_app

  /** The `process_map` of `close_app`: the names it knows how to close and the
      process name each one is running under. */
  const ProcessMap: map<string, string> := map[
    "notepad" := "notepad.exe",
    "calculator" := "Calculator.exe",
    "powerpoint" := "POWERPNT.EXE",
    "word" := "WINWORD.EXE"
  ]

  /** A running process name matches a process name when both lower-case alike:
      the same length, and letter by letter equal ignoring case. */
  function SameProcess(running: string, process: string): (b: bool)
    ensures b <==> (|running| == |process|
      && forall i :: 0 <= i < |running| ==> LowerChar(running[i]) == LowerChar(process[i]))
  {
    var l, m := Lower(running), Lower(process);
    assert |l| == |process| ==> forall i :: 0 <= i < |l| ==> l[i] == LowerChar(running[i]) && m[i] == LowerChar(process[i]);
    l == m
  }

  /** The position of the first process in the listing that matches `process`. */
  function FirstRunning(running: seq<string>, process: string): (k: Option<nat>)
    ensures k.Some? ==> k.value < |running| && SameProcess(running[k.value], process)
    ensures forall j :: 0 <= j < (if k.Some? then k.value else |running|) ==> !SameProcess(running[j], process)
  {
    if running == [] then None
    else if SameProcess(running[0], process) then Some(0)
    else match FirstRunning(running[1..], process)
      case Some(k) => Some(k + 1)
      case None => None
  }

  /** The process `close_app` kills, if any: only a name that is a key of the
      process map (compared exactly after lower-casing) leads to a kill, and then
      of the first matching process in the listing. */
  function Victim(appName: string, running: seq<string>): (k: Option<nat>)
    ensures k.Some? ==> Lower(appName) in ProcessMap && k.value < |running|
    ensures k.Some? ==> SameProcess(running[k.value], ProcessMap[Lower(appName)])
    ensures k.Some? ==> forall j :: 0 <= j < k.value ==> !SameProcess(running[j], ProcessMap[Lower(appName)])
    ensures k.None? ==>
      (Lower(appName) !in ProcessMap ||
       forall j :: 0 <= j < |running| ==> !SameProcess(running[j], ProcessMap[Lower(appName)]))
  {
    var app := Lower(appName);
    if app in ProcessMap then FirstRunning(running, ProcessMap[app]) else None
  }

  /** The names of the process map are words of lower-case letters. */
  lemma ProcessMapKeysLower(app: string)
    requires app in ProcessMap
    ensures app != [] && forall i :: 0 <= i < |app| ==> IsLower(app[i])
  {
    assert app in {"notepad", "calculator", "powerpoint", "word"};
  }

  /** The names `close_app` prints for the four names of its process map. */
  lemma CapitalizedNames()
    ensures Capitalize("notepad") == "Notepad"
    ensures Capitalize("calculator") == "Calculator"
    ensures Capitalize("powerpoint") == "Powerpoint"
    ensures Capitalize("word") == "Word"
  {
    CapitalizedName("notepad", "Notepad");
    CapitalizedName("calculator", "Calculator");
    CapitalizedName("powerpoint", "Powerpoint");
    CapitalizedName("word", "Word");
  }

  /** A name of the process map, capitalized: its first letter upper-case. */
  lemma CapitalizedName(app: string, name: string)
    requires app in ProcessMap && |name| == |app|
    requires name[0] as int == app[0] as int - 32 && name[1..] == app[1..]
    ensures Capitalize(app) == name
  {
    ProcessMapKeysLower(app);
    CapitalizeWord(app);
    assert Capitalize(app)[0] == name[0];
  }

  /** The reply of `close_app` for the lower-cased name `app`, given whether a
      process was killed. An unknown name is repeated as it is. A known name
      opens the reply with its first letter upper-case and the rest as given,
      followed by whether it was closed or not running. */
  function CloseReply(app: string, killed: bool): (r: string)
    ensures app !in ProcessMap ==> r == "I don't know how to close " + app + "."
    ensures app in ProcessMap ==>
      |app| < |r| && IsUpper(r[0]) && Lower(r[..|app|]) == app && r[1..|app|] == app[1..]
      && r[|app|..] == (if killed then " closed successfully." else " is not running.")
  {
    if app !in ProcessMap then "I don't know how to close " + app + "."
    else
      ProcessMapKeysLower(app);
      CapitalizeWord(app);
      var tail := if killed then " closed successfully." else " is not running.";
      assert (Capitalize(app) + tail)[..|app|] == Capitalize(app);
      Capitalize(app) + tail
  }

  /** `close_app(app_name)`: walks the process listing, kills the first process
      whose name matches the mapped process name and stops there. Nothing is
      killed for a name the process map does not know, nor when no process
      matches. */
  method CloseApp(appName: string, running: seq<string>) returns (response: string, killed: Option<nat>)
    ensures killed == Victim(appName, running)
    ensures response == CloseReply(Lower(appName), killed.Some?)
  {
    var app := Lower(appName);
    if app in ProcessMap {
      var process := ProcessMap[app];
      var i := 0;
      while i < |running|
        invariant 0 <= i <= |running|
        invariant forall j :: 0 <= j < i ==> !SameProcess(running[j], process)
      {
        if Lower(running[i]) == Lower(process) {
          killed := Some(i);
          response := Capitalize(app) + " closed successfully.";
          return;
        }
        i := i + 1;
      }
      killed := None;
      response := Capitalize(app) + " is not running.";
    } else {
      killed := None;
      response := "I don't know how to close " + app + ".";
    }
  }
}
