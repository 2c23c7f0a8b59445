/**
  The command interpreter (`process_command`): a transcribed command is
  lower-cased, classified into an intent by a fixed sequence of tests, its
  argument is cut out of it, and the intent is answered with a reply and at
  most one effect on the outside world.
 */
module Commands {
  import opened Wrappers
  import opened PyStr
  import opened Clock
  import Apps

  // ---------------------------------------------------------------------------
  // Intents

  /** What a command asks for, with the argument cut out of it. */
  datatype Intent =
    | OpenApp(app: string)
    | CloseApp(app: string)
    | QueryTime
    | Exit
    | Search(query: string)
    | Unrecognized

  /** `fuzz.partial_ratio(command, phrase) > 80`, supplied by the caller: the
      similarity score itself is computed by a library outside this model. */
  type Similar = (string, string) -> bool

  /** `process_command`'s choice of intent. The tests run in a fixed order and
      the first that succeeds decides: "open"; "close" or "terminate"; a command
      resembling "what is the time" or "tell the time"; one resembling "exit" or
      "quit"; "search" or "look up"; otherwise the command is not recognised.
      An extracted argument is the lower-cased command with the keywords
      removed, stripped: it never has white space at either end, and it is
      shorter than the command by at least the shortest keyword that selects
      its intent ("open", "close", "search"). */
  function Classify(command: string, similar: Similar): (r: Intent)
    ensures r.OpenApp? <==> Contains(Lower(command), "open")
    ensures r.OpenApp? ==> Trimmed(r.app) && |r.app| + |"open"| <= |command|
    ensures r.CloseApp? ==> Trimmed(r.app) && |r.app| + |"close"| <= |command|
    ensures r.Search? ==> Trimmed(r.query) && |r.query| + |"search"| <= |command|
  {
    var c := Lower(command);
    if Contains(c, "open") then
      RemoveShrinks(c, "open");
      OpenApp(Strip(Remove(c, "open")))
    else if Contains(c, "close") || Contains(c, "terminate") then
      CloseShrinks(c);
      CloseApp(Strip(Remove(Remove(c, "close"), "terminate")))
    else if similar(c, "what is the time") || similar(c, "tell the time") then
      QueryTime
    else if similar(c, "exit") || similar(c, "quit") then
      Exit
    else if Contains(c, "search") || Contains(c, "look up") then
      SearchShrinks(c);
      Search(Strip(Remove(Remove(Remove(c, "search for"), "look up"), "search")))
    else
      Unrecognized
  }

  /** Removing "close" and "terminate" from a command holding either takes out
      at least five characters. */
  lemma CloseShrinks(c: string)
    requires Contains(c, "close") || Contains(c, "terminate")
    ensures |Remove(Remove(c, "close"), "terminate")| + 5 <= |c|
  {
    if Contains(c, "close") {
      RemoveShrinks(c, "close");
    } else {
      RemoveAbsent(c, "close");
      RemoveShrinks(c, "terminate");
    }
  }

  /** Removing the three search keywords from a command holding "search" or
      "look up" takes out at least six characters. */
  lemma SearchShrinks(c: string)
    requires Contains(c, "search") || Contains(c, "look up")
    ensures |Remove(Remove(Remove(c, "search for"), "look up"), "search")| + 6 <= |c|
  {
    var c1 := Remove(c, "search for");
    var c2 := Remove(c1, "look up");
    if Contains(c, "search for") {
      RemoveShrinks(c, "search for");
    } else {
      RemoveAbsent(c, "search for");
      if Contains(c, "look up") {
        RemoveShrinks(c, "look up");
      } else {
        RemoveAbsent(c, "look up");
        RemoveShrinks(c, "search");
      }
    }
  }

  // ---------------------------------------------------------------------------
  // The same classification as a table of rules

  /** How a rule decides that it applies: one of its keywords occurs in the
      command, or the command resembles one of its phrases. */
  datatype Test = AnyWord(words: seq<string>) | Resembles(phrases: seq<string>)

  /** The intent a rule produces, before its argument is known. */
  datatype Kind = OpenKind | CloseKind | TimeKind | ExitKind | SearchKind

  /** A classification rule: its test, the keywords removed (in order) to leave
      the argument, and the intent it produces. */
  datatype Rule = Rule(test: Test, strip: seq<string>, kind: Kind)

  const OpenRule := Rule(AnyWord(["open"]), ["open"], OpenKind)
  const CloseRule := Rule(AnyWord(["close", "terminate"]), ["close", "terminate"], CloseKind)
  const TimeRule := Rule(Resembles(["what is the time", "tell the time"]), [], TimeKind)
  const ExitRule := Rule(Resembles(["exit", "quit"]), [], ExitKind)
  const SearchRule := Rule(AnyWord(["search", "look up"]), ["search for", "look up", "search"], SearchKind)

  /** The tests of `process_command` as data, in priority order. */
  const Rules: seq<Rule> := [OpenRule, CloseRule, TimeRule, ExitRule, SearchRule]

  predicate AnyContains(c: string, words: seq<string>) {
    words != [] && (Contains(c, words[0]) || AnyContains(c, words[1..]))
  }

  predicate AnySimilar(c: string, phrases: seq<string>, similar: Similar) {
    phrases != [] && (similar(c, phrases[0]) || AnySimilar(c, phrases[1..], similar))
  }

  lemma AnyOfTwo(c: string, a: string, b: string, similar: Similar)
    ensures AnyContains(c, [a]) == Contains(c, a)
    ensures AnyContains(c, [a, b]) == (Contains(c, a) || Contains(c, b))
    ensures AnySimilar(c, [a, b], similar) == (similar(c, a) || similar(c, b))
  {
    assert [a][1..] == [];
    assert [a, b][1..] == [b];
    assert [b][1..] == [];
    assert AnySimilar(c, [b], similar) == similar(c, b);
  }

  predicate Fires(rule: Rule, c: string, similar: Similar) {
    match rule.test
    case AnyWord(words) => AnyContains(c, words)
    case Resembles(phrases) => AnySimilar(c, phrases, similar)
  }

  /** Removes each keyword in turn, as chained `replace(w, "")` calls do. */
  function RemoveAll(c: string, words: seq<string>): string
    decreases |words|
  {
    if words == [] then c else RemoveAll(Remove(c, words[0]), words[1..])
  }

  function Make(kind: Kind, arg: string): Intent {
    match kind
    case OpenKind => OpenApp(arg)
    case CloseKind => CloseApp(arg)
    case TimeKind => QueryTime
    case ExitKind => Exit
    case SearchKind => Search(arg)
  }

  /** The position of the first rule from `i` on that fires on `c`, if any. */
  function FirstFiring(rules: seq<Rule>, i: nat, c: string, similar: Similar): (r: Option<nat>)
    ensures r.Some? ==> i <= r.value < |rules|
    decreases |rules| - i
  {
    if i >= |rules| then None
    else if Fires(rules[i], c, similar) then Some(i)
    else FirstFiring(rules, i + 1, c, similar)
  }

  /** The intent of the first rule that fires on the lower-cased command `c`,
      with that rule's keywords removed to leave the argument. */
  function ClassifyBy(rules: seq<Rule>, c: string, similar: Similar): Intent {
    match FirstFiring(rules, 0, c, similar)
    case None => Unrecognized
    case Some(k) => Make(rules[k].kind, Strip(RemoveAll(c, rules[k].strip)))
  }

  /** First match wins: the rule that decides is the first that fires, whatever
      later rules would also fire. */
  lemma FirstRuleWins(rules: seq<Rule>, c: string, similar: Similar, k: nat)
    requires k < |rules| && Fires(rules[k], c, similar)
    requires forall j :: 0 <= j < k ==> !Fires(rules[j], c, similar)
    ensures FirstFiring(rules, 0, c, similar) == Some(k)
    ensures ClassifyBy(rules, c, similar) == Make(rules[k].kind, Strip(RemoveAll(c, rules[k].strip)))
  {
    FirstRuleWinsFrom(rules, c, similar, 0, k);
  }

  lemma {:induction false} FirstRuleWinsFrom(rules: seq<Rule>, c: string, similar: Similar, i: nat, k: nat)
    requires i <= k < |rules| && Fires(rules[k], c, similar)
    requires forall j :: i <= j < k ==> !Fires(rules[j], c, similar)
    ensures FirstFiring(rules, i, c, similar) == Some(k)
    decreases k - i
  {
    if i < k {
      FirstRuleWinsFrom(rules, c, similar, i + 1, k);
    }
  }

  /** When no rule fires, the command is not recognised. */
  lemma NoRuleFires(rules: seq<Rule>, c: string, similar: Similar)
    requires forall j :: 0 <= j < |rules| ==> !Fires(rules[j], c, similar)
    ensures FirstFiring(rules, 0, c, similar) == None
    ensures ClassifyBy(rules, c, similar) == Unrecognized
  {
    NoRuleFiresFrom(rules, c, similar, 0);
  }

  lemma {:induction false} NoRuleFiresFrom(rules: seq<Rule>, c: string, similar: Similar, i: nat)
    requires forall j :: i <= j < |rules| ==> !Fires(rules[j], c, similar)
    ensures FirstFiring(rules, i, c, similar) == None
    decreases |rules| - i
  {
    if i < |rules| {
      NoRuleFiresFrom(rules, c, similar, i + 1);
    }
  }

  /** What each rule of the table tests and strips, spelled out. */
  lemma OpenRuleSpelledOut(c: string, similar: Similar)
    ensures Fires(OpenRule, c, similar) == Contains(c, "open")
    ensures RemoveAll(c, OpenRule.strip) == Remove(c, "open")
  {
    AnyOfTwo(c, "open", "open", similar);
    assert ["open"][1..] == [];
  }

  lemma CloseRuleSpelledOut(c: string, similar: Similar)
    ensures Fires(CloseRule, c, similar) == (Contains(c, "close") || Contains(c, "terminate"))
    ensures RemoveAll(c, CloseRule.strip) == Remove(Remove(c, "close"), "terminate")
  {
    AnyOfTwo(c, "close", "terminate", similar);
    assert ["close", "terminate"][1..] == ["terminate"] && ["terminate"][1..] == [];
  }

  lemma PhraseRulesSpelledOut(c: string, similar: Similar)
    ensures Fires(TimeRule, c, similar) == (similar(c, "what is the time") || similar(c, "tell the time"))
    ensures Fires(ExitRule, c, similar) == (similar(c, "exit") || similar(c, "quit"))
  {
    AnyOfTwo(c, "what is the time", "tell the time", similar);
    AnyOfTwo(c, "exit", "quit", similar);
  }

  lemma SearchRuleSpelledOut(c: string, similar: Similar)
    ensures Fires(SearchRule, c, similar) == (Contains(c, "search") || Contains(c, "look up"))
    ensures RemoveAll(c, SearchRule.strip) == Remove(Remove(Remove(c, "search for"), "look up"), "search")
  {
    AnyOfTwo(c, "search", "look up", similar);
    var w := ["search for", "look up", "search"];
    assert w[1..] == ["look up", "search"] && w[1..][1..] == ["search"] && w[1..][1..][1..] == [];
  }

  /** One step of the search for the first rule that fires, at each position
      of the table. */
  lemma OpenStep(c: string, similar: Similar)
    ensures FirstFiring(Rules, 0, c, similar) ==
      if Contains(c, "open") then Some(0) else FirstFiring(Rules, 1, c, similar)
  {
    OpenRuleSpelledOut(c, similar);
    assert Rules[0] == OpenRule;
  }

  lemma CloseStep(c: string, similar: Similar)
    ensures FirstFiring(Rules, 1, c, similar) ==
      if Contains(c, "close") || Contains(c, "terminate") then Some(1)
      else FirstFiring(Rules, 2, c, similar)
  {
    CloseRuleSpelledOut(c, similar);
    assert Rules[1] == CloseRule;
  }

  lemma PhraseSteps(c: string, similar: Similar)
    ensures FirstFiring(Rules, 2, c, similar) ==
      if similar(c, "what is the time") || similar(c, "tell the time") then Some(2)
      else FirstFiring(Rules, 3, c, similar)
    ensures FirstFiring(Rules, 3, c, similar) ==
      if similar(c, "exit") || similar(c, "quit") then Some(3)
      else FirstFiring(Rules, 4, c, similar)
  {
    PhraseRulesSpelledOut(c, similar);
    assert Rules[2] == TimeRule && Rules[3] == ExitRule;
  }

  lemma SearchStep(c: string, similar: Similar)
    ensures FirstFiring(Rules, 4, c, similar) ==
      if Contains(c, "search") || Contains(c, "look up") then Some(4) else None
  {
    SearchRuleSpelledOut(c, similar);
    assert Rules[4] == SearchRule;
    assert FirstFiring(Rules, 5, c, similar) == None;
  }

  /** The intent each rule builds, spelled out. */
  lemma OpenVerdict(c: string, similar: Similar)
    ensures Make(Rules[0].kind, Strip(RemoveAll(c, Rules[0].strip))) == OpenApp(Strip(Remove(c, "open")))
  {
    assert Rules[0] == OpenRule;
    OpenRuleSpelledOut(c, similar);
    MakeWith(Rules[0].kind, RemoveAll(c, Rules[0].strip), Remove(c, "open"));
  }

  lemma CloseVerdict(c: string, similar: Similar)
    ensures Make(Rules[1].kind, Strip(RemoveAll(c, Rules[1].strip))) ==
      CloseApp(Strip(Remove(Remove(c, "close"), "terminate")))
  {
    assert Rules[1] == CloseRule;
    CloseRuleSpelledOut(c, similar);
    MakeWith(Rules[1].kind, RemoveAll(c, Rules[1].strip), Remove(Remove(c, "close"), "terminate"));
  }

  lemma PhraseVerdicts(c: string)
    ensures Make(Rules[2].kind, Strip(RemoveAll(c, Rules[2].strip))) == QueryTime
    ensures Make(Rules[3].kind, Strip(RemoveAll(c, Rules[3].strip))) == Exit
  {
    assert Rules[2] == TimeRule && Rules[3] == ExitRule;
  }

  lemma SearchVerdict(c: string, similar: Similar)
    ensures Make(Rules[4].kind, Strip(RemoveAll(c, Rules[4].strip))) ==
      Search(Strip(Remove(Remove(Remove(c, "search for"), "look up"), "search")))
  {
    assert Rules[4] == SearchRule;
    SearchRuleSpelledOut(c, similar);
    MakeWith(Rules[4].kind, RemoveAll(c, Rules[4].strip), Remove(Remove(Remove(c, "search for"), "look up"), "search"));
  }

  /** Equal remainders give equal intents. */
  lemma MakeWith(kind: Kind, a: string, b: string)
    requires a == b
    ensures Make(kind, Strip(a)) ==
      match kind
      case OpenKind => OpenApp(Strip(b))
      case CloseKind => CloseApp(Strip(b))
      case TimeKind => QueryTime
      case ExitKind => Exit
      case SearchKind => Search(Strip(b))
  {
  }

  /** The table, run on `c`, gives the verdict of the chain of tests. */
  lemma TableDecides(c: string, similar: Similar)
    ensures ClassifyBy(Rules, c, similar) ==
      if Contains(c, "open") then OpenApp(Strip(Remove(c, "open")))
      else if Contains(c, "close") || Contains(c, "terminate") then
        CloseApp(Strip(Remove(Remove(c, "close"), "terminate")))
      else if similar(c, "what is the time") || similar(c, "tell the time") then QueryTime
      else if similar(c, "exit") || similar(c, "quit") then Exit
      else if Contains(c, "search") || Contains(c, "look up") then
        Search(Strip(Remove(Remove(Remove(c, "search for"), "look up"), "search")))
      else Unrecognized
  {
    OpenStep(c, similar);
    CloseStep(c, similar);
    PhraseSteps(c, similar);
    SearchStep(c, similar);
    if Contains(c, "open") {
      OpenVerdict(c, similar);
    } else if Contains(c, "close") || Contains(c, "terminate") {
      CloseVerdict(c, similar);
    } else if similar(c, "what is the time") || similar(c, "tell the time") || similar(c, "exit") || similar(c, "quit") {
      PhraseVerdicts(c);
    } else if Contains(c, "search") || Contains(c, "look up") {
      SearchVerdict(c, similar);
    }
  }

  /** The if-chain of `process_command` is the rule table read top to bottom. */
  lemma ClassifyFollowsRules(command: string, similar: Similar)
    ensures Classify(command, similar) == ClassifyBy(Rules, Lower(command), similar)
  {
    TableDecides(Lower(command), similar);
  }

  /** Classification reads only the lower-cased command. */
  lemma ClassifyIgnoresCase(command: string, similar: Similar)
    ensures Classify(Lower(command), similar) == Classify(command, similar)
  {
    LowerIdempotent(command);
  }

  /** "open" followed by white space and a name: the intent is to open that
      name, whatever else the name resembles. */
  lemma OpenTrailingName(command: string, similar: Similar, sep: string, name: string)
    requires Lower(command) == "open" + sep + name
    requires AllSpace(sep) && Trimmed(name) && !Contains(name, "open")
    ensures Classify(command, similar) == OpenApp(name)
  {
    var c := Lower(command);
    assert c == "open" + (sep + name);
    KeywordThenArgument("open", sep, name);
    assert Contains(c, "open");
  }

  /** Every occurrence of "open" is removed, not only the command word: asking to
      open "openoffice" asks to open "office". */
  lemma OpenRemovesEveryOccurrence(similar: Similar)
    ensures Classify("open openoffice", similar) == OpenApp("office")
  {
    var c := "open openoffice";
    var office := "office";
    OpenOfficeSpelledOut();
    RemoveLeading("open", " " + ("open" + office));
    SpaceThenKeyword("open", office);
    OfficeLacksOpen();
    RemoveAbsent(office, "open");
    StripAfterSpaces(" ", office);
  }

  lemma OpenOfficeSpelledOut()
    ensures Lower("open openoffice") == "open openoffice"
    ensures "open openoffice" == "open" + (" " + ("open" + "office"))
  {
  }

  lemma OfficeLacksOpen()
    ensures !Contains("office", "open") && Trimmed("office")
  {
    assert 'p' !in "office";
    MissingCharNotContained("office", "open", 'p');
  }

  /** A space before an occurrence of a pattern that does not start with one is
      kept, and the occurrence is removed. */
  lemma SpaceThenKeyword(p: string, rest: string)
    requires p != [] && p[0] != ' '
    ensures Remove(" " + (p + rest), p) == " " + Remove(rest, p)
  {
    var s := " " + (p + rest);
    assert s[0] == ' ' && s[1..] == p + rest;
    RemoveStep(s, p);
    RemoveLeading(p, rest);
  }

  /** A keyword, white space and a trimmed argument free of the keyword: removing
      the keyword and stripping leaves the argument. */
  lemma KeywordThenArgument(p: string, sep: string, arg: string)
    requires p != [] && !IsSpace(p[0])
    requires AllSpace(sep) && Trimmed(arg) && !Contains(arg, p)
    ensures Strip(Remove(p + (sep + arg), p)) == arg
  {
    RemoveLeading(p, sep + arg);
    KeptAfterSpaces(sep, arg, p);
    StripAfterSpaces(sep, arg);
  }

  /** Removal drops a leading occurrence of the pattern. */
  lemma RemoveLeading(p: string, rest: string)
    requires p != []
    ensures Remove(p + rest, p) == Remove(rest, p)
  {
    assert p <= p + rest;
    assert (p + rest)[|p|..] == rest;
  }

  /** White space and a text free of a pattern that does not start with white
      space: removal leaves them as they are. */
  lemma KeptAfterSpaces(sep: string, text: string, p: string)
    requires AllSpace(sep) && p != [] && !IsSpace(p[0]) && !Contains(text, p)
    ensures Remove(sep + text, p) == sep + text
  {
    SpacesThenAbsent(sep, text, p);
    RemoveAbsent(sep + text, p);
  }

  /** Stripping white space followed by a trimmed text leaves the text. */
  lemma StripAfterSpaces(sep: string, text: string)
    requires AllSpace(sep) && Trimmed(text)
    ensures Strip(sep + text) == text
  {
    assert sep + text + [] == sep + text;
    StripUnique(sep, text, []);
  }

  /** A keyword with a character that `lead` lacks, and no white space, is
      absent from `lead`, white space and a text that lacks it. */
  lemma AbsentAfterLead(lead: string, sep: string, query: string, p: string, ch: char)
    requires ch in p && ch !in lead && !Contains(query, p)
    requires AllSpace(sep) && sep != []
    requires forall j :: 0 <= j < |p| ==> !IsSpace(p[j])
    ensures !Contains(lead + sep + query, p)
  {
    MissingCharNotContained(lead, p, ch);
    SeparatedAbsent(lead, sep, query, p);
  }

  /** None of the keywords tested before "search" occurs in "search for",
      white space and a query free of them. */
  lemma SearchForPassesEarlierTests(sep: string, query: string)
    requires AllSpace(sep) && sep != []
    requires !Contains(query, "open") && !Contains(query, "close") && !Contains(query, "terminate")
    ensures var c := "search for" + sep + query;
      !Contains(c, "open") && !Contains(c, "close") && !Contains(c, "terminate") && Contains(c, "search")
  {
    var lead := "search for";
    assert 'p' !in lead && 'l' !in lead && 'm' !in lead;
    AbsentAfterLead(lead, sep, query, "open", 'p');
    AbsentAfterLead(lead, sep, query, "close", 'l');
    AbsentAfterLead(lead, sep, query, "terminate", 'm');
    assert "search" <= lead + sep + query;
  }

  /** Removing the search keywords from "search for", white space and a query
      free of them, then stripping, leaves the query. */
  lemma SearchForArgument(sep: string, query: string)
    requires AllSpace(sep) && Trimmed(query)
    requires !Contains(query, "search") && !Contains(query, "look up")
    ensures Strip(Remove(Remove(Remove("search for" + sep + query, "search for"), "look up"), "search")) == query
  {
    var lead := "search for";
    var rest := sep + query;
    assert lead + sep + query == lead + rest;
    RemoveLeading(lead, rest);
    LacksSearchFor(query);
    KeptAfterSpaces(sep, query, lead);
    KeptAfterSpaces(sep, query, "look up");
    KeptAfterSpaces(sep, query, "search");
    StripAfterSpaces(sep, query);
  }

  lemma LacksSearchFor(query: string)
    requires !Contains(query, "search")
    ensures !Contains(query, "search for")
  {
    assert "search for" == "search" + " for";
    if Contains(query, "search for") {
      ContainsPrefixOfPattern(query, "search", " for");
    }
  }

  /** "search for", white space and a query free of every keyword: the intent is
      a web search for exactly that query, provided the command resembles none
      of the time and exit phrases. */
  lemma SearchForQuery(command: string, similar: Similar, sep: string, query: string)
    requires Lower(command) == "search for" + sep + query
    requires AllSpace(sep) && sep != [] && Trimmed(query)
    requires !Contains(query, "open") && !Contains(query, "close") && !Contains(query, "terminate")
    requires !Contains(query, "search") && !Contains(query, "look up")
    requires !similar(Lower(command), "what is the time") && !similar(Lower(command), "tell the time")
    requires !similar(Lower(command), "exit") && !similar(Lower(command), "quit")
    ensures Classify(command, similar) == Search(query)
  {
    SearchForPassesEarlierTests(sep, query);
    SearchForArgument(sep, query);
  }

  // ---------------------------------------------------------------------------
  // Answering an intent

  /** The one effect a command may have on the outside world: the shell command
      issued to launch an application, the position (in the process listing) of
      the process killed, the address opened in the browser, or ending the
      program. */
  datatype Effect = NoEffect | Launch(command: string) | Kill(index: nat) | Browse(url: string) | Terminate

  /** The reply printed and spoken, if any, and the effect. */
  datatype Outcome = Outcome(response: Option<string>, effect: Effect)

  const NoName := "I didn't catch the application name. Please try again."
  const Farewell := "Goodbye, see you again!"
  const NotRecognized := "Command not recognized. Please try again."
  const SearchEngine := "https://www.google.com/search?q="

  /** The reply to a clock reading. */
  function TimeReply(hour: Hour, minute: Minute): (r: string)
    ensures |r| == 20 && r[..12] == "The time is "
    ensures ParseTime(r[12..]) == Some((hour, minute))
  {
    var t := FormatTime(hour, minute);
    assert ("The time is " + t)[12..] == t;
    "The time is " + t
  }

  /** The outcome of `open_app` as an effect. */
  function Launched(l: Apps.OpenResult): Effect {
    if l.command.Some? then Launch(l.command.value) else NoEffect
  }

  /** How `process_command` answers an intent, given the clock reading and the
      names of the running processes. An empty application name is asked for
      again and opens or closes nothing; an empty search query is the one case
      with no reply at all; only Exit ends the program; a launch comes only from
      a name holding a known key, a kill only of a process matching the mapped
      name, and the browser is pointed at the search engine with the query
      appended as it is. */
  function Respond(intent: Intent, hour: Hour, minute: Minute, running: seq<string>): (o: Outcome)
    ensures o.response.None? <==> intent == Search([])
    ensures o.effect == Terminate <==> intent == Exit
    ensures (intent == OpenApp([]) || intent == CloseApp([])) ==> o == Outcome(Some(NoName), NoEffect)
    ensures o.effect.Launch? ==> intent.OpenApp? && Apps.OpenApp(intent.app).command == Some(o.effect.command)
    ensures o.effect.Kill? ==>
      intent.CloseApp? && Lower(intent.app) in Apps.ProcessMap && o.effect.index < |running|
      && Apps.SameProcess(running[o.effect.index], Apps.ProcessMap[Lower(intent.app)])
      && (forall j :: 0 <= j < o.effect.index ==> !Apps.SameProcess(running[j], Apps.ProcessMap[Lower(intent.app)]))
      && Some(o.effect.index) == Apps.Victim(intent.app, running)
    ensures intent.OpenApp? && intent.app != [] ==>
      o == Outcome(Some(Apps.OpenApp(intent.app).response), Launched(Apps.OpenApp(intent.app)))
    ensures intent.CloseApp? && intent.app != [] ==>
      o.response == Some(Apps.CloseReply(Lower(intent.app), Apps.Victim(intent.app, running).Some?))
      && (o.effect.Kill? <==> Apps.Victim(intent.app, running).Some?)
      && (o.effect.NoEffect? <==> Apps.Victim(intent.app, running).None?)
    ensures o.effect.Browse? <==> intent.Search? && intent.query != []
    ensures o.effect.Browse? ==>
      (o.effect.url == SearchEngine + intent.query
       && o.response == Some("Searching for " + intent.query + " on the web."))
    ensures intent == Exit ==> o == Outcome(Some(Farewell), Terminate)
    ensures intent == Unrecognized ==> o == Outcome(Some(NotRecognized), NoEffect)
    ensures intent == QueryTime ==> o == Outcome(Some(TimeReply(hour, minute)), NoEffect)
  {
    match intent
    case OpenApp(app) =>
      if app == [] then Outcome(Some(NoName), NoEffect)
      else
        var l := Apps.OpenApp(app);
        Outcome(Some(l.response), Launched(l))
    case CloseApp(app) =>
      if app == [] then Outcome(Some(NoName), NoEffect)
      else
        var k := Apps.Victim(app, running);
        Outcome(Some(Apps.CloseReply(Lower(app), k.Some?)), if k.Some? then Kill(k.value) else NoEffect)
    case QueryTime => Outcome(Some(TimeReply(hour, minute)), NoEffect)
    case Exit => Outcome(Some(Farewell), Terminate)
    case Search(query) =>
      if query == [] then Outcome(None, NoEffect)
      else Outcome(Some("Searching for " + query + " on the web."), Browse(SearchEngine + query))
    case Unrecognized => Outcome(Some(NotRecognized), NoEffect)
  }

  /** `process_command(command)`: classifies the command and answers it, walking
      the process listing with `close_app` for a named close request. The clock
      reading, the process listing and the similarity test are inputs; the reply
      and the effect are returned instead of being performed. */
  method ProcessCommand(command: string, similar: Similar, hour: Hour, minute: Minute, running: seq<string>)
    returns (o: Outcome)
    ensures o == Respond(Classify(command, similar), hour, minute, running)
  {
    var intent := Classify(command, similar);
    if intent.CloseApp? && intent.app != [] {
      var response, killed := Apps.CloseApp(intent.app, running);
      o := Outcome(Some(response), if killed.Some? then Kill(killed.value) else NoEffect);
    } else {
      o := Respond(intent, hour, minute, running);
    }
  }

  /** A command holding "open" is an open request whatever else it holds: its
      reply is `open_app`'s or a request for the name, so it never closes,
      searches, reads the clock or ends the program. */
  lemma OpenWins(command: string, similar: Similar, hour: Hour, minute: Minute, running: seq<string>)
    requires Contains(Lower(command), "open")
    ensures Classify(command, similar).OpenApp?
    ensures var i := Classify(command, similar); var o := Respond(i, hour, minute, running);
      o.response.Some? && (o.effect.NoEffect? || o.effect.Launch?)
      && (o.response == Some(NoName) || o.response == Some(Apps.OpenApp(i.app).response))
  {
  }

  /** "open", white space and a known application's name: the application is
      launched and the reply says so. */
  lemma OpenKnownApp(command: string, similar: Similar, sep: string, k: nat,
                     hour: Hour, minute: Minute, running: seq<string>)
    requires k < |Apps.Launchers| && Lower(command) == "open" + sep + Apps.Launchers[k].key
    requires AllSpace(sep)
    ensures Respond(Classify(command, similar), hour, minute, running)
      == Outcome(Some(Apps.Launchers[k].reply), Launch(Apps.Launchers[k].command))
  {
    var key := Apps.Launchers[k].key;
    Apps.KnownKeyOpens(k);
    Apps.KeyIsPlain(k);
    OpenTrailingName(command, similar, sep, key);
  }
}
