/** What loading makes of any document, readable or not, leaf by leaf. */
module ConfigLeaves {
  import opened CText
  import opened JsonMachine
  import opened JsonDocument
  import opened PathString
  import opened Config
  import opened ConfigPaths
  import opened ConfigReading
  import opened ConfigLoading
  import opened ConfigEntries
  import T = ConfigTheorem
  import P = JsonParser
  import U = Unescape

  /** A name in a path that stands for a text. */
  predicate Stands(e: PathElement, text: string) {
    e.Name? && Field(e.raw) == Fits(text)
  }

  predicate Holds(v: Value, text: string) {
    v.Str? && Field(v.raw) == Fits(text)
  }

  function SettingKey(s: Setting): Key {
    match s
    case Text(t, _) => IsText(t)
    case Flag(f, _) => IsFlag(f)
    case Number(n, _) => IsNumber(n)
    case Args(_) => IsArgs
  }

  /** A leaf at this place in an application gives it the setting. */
  predicate Sets(path: seq<PathElement>, v: Value, s: Setting)
    requires path != []
  {
    && Stands(path[0], KeyName(SettingKey(s)))
    && match s
       case Text(_, text) => |path| == 1 && Holds(v, text)
       case Flag(_, b) => |path| == 1 && v == Bool(b)
       case Number(_, k) => |path| == 1 && v == Integer(k)
       case Args(list) => (|path| == 1 || (|path| == 2 && path[1].Index?)) && |list| == 1 && Holds(v, list[0])
  }

  /** A leaf at this place in the configuration object declares the entry. */
  predicate Declares(path: seq<PathElement>, v: Value, e: Entry) {
    match e
    case LogFormat(format) => |path| == 1 && Stands(path[0], "ni_log_format") && Holds(v, format)
    case LogDirs(create) => |path| == 1 && Stands(path[0], "ni_create_log_dirs") && v == Bool(create)
    case Application(name, settings) =>
      |path| >= 2 && |settings| == 1 && IsAppName(name) && Stands(path[0], name) && Sets(path[1..], v, settings[0])
  }

  ghost predicate Readable(path: seq<PathElement>, v: Value) {
    exists e :: Declares(path, v, e)
  }

  /** The application is taken for the one at hand before there is any. */
  predicate Placeless(done: seq<Entry>, name: string) {
    Blocks(done) == [] && name == ""
  }

  predicate Overruns(v: Value) {
    v.Str? && Field(v.raw).Overrun?
  }

  /** The text of the value is looked at below this key. */
  predicate TakesText(k: Key, path: seq<PathElement>) {
    (|path| == 1 && (k.IsText? || k.IsArgs?)) || (|path| == 2 && k.IsArgs? && path[1].Index?)
  }

  /** Refusing the leaf goes wrong itself: a text overruns its buffer, or the application
      has no place. */
  ghost predicate Unsafe(done: seq<Entry>, path: seq<PathElement>, v: Value) {
    path != [] && path[0].Name? && (
      || Field(path[0].raw).Overrun?
      || (|path| == 1 && Stands(path[0], "ni_log_format") && Overruns(v))
      || (|path| >= 2 && exists name :: Stands(path[0], name) && IsAppName(name) && UnsafeIn(done, name, path[1..], v)))
  }

  ghost predicate UnsafeIn(done: seq<Entry>, name: string, path: seq<PathElement>, v: Value)
    requires path != []
  {
    path[0].Name? && (
      || Field(path[0].raw).Overrun?
      || exists k :: Stands(path[0], KeyName(k)) && (Placeless(done, name) || (TakesText(k, path) && Overruns(v))))
  }

  /** The leaf lies in the configuration object at the path. */
  ghost predicate Within(path: seq<PathElement>, at: seq<string>) {
    at == [] || Under(path, at)
  }

  /** The leaves the loader looks at: from the first one within on, up to the next one
      that is not. */
  ghost function FirstRun(events: seq<Event>, at: seq<string>): seq<Event>
    decreases |events|
  {
    if events == [] then []
    else if Within(events[0].path, at) then RunFrom(events, at)
    else FirstRun(events[1..], at)
  }

  ghost function RunFrom(events: seq<Event>, at: seq<string>): seq<Event>
    decreases |events|
  {
    if events == [] || !Within(events[0].path, at) then [] else [events[0]] + RunFrom(events[1..], at)
  }

  /** The entries declared by the leaves up to the first that declares nothing. */
  ghost predicate Read(run: seq<Event>, n: nat, es: seq<Entry>) {
    && |es| <= |run|
    && (forall k :: 0 <= k < |es| ==> |run[k].path| >= n && Declares(run[k].path[n..], run[k].value, es[k]))
    && (|es| < |run| ==> |run[|es|].path| >= n && !Readable(run[|es|].path[n..], run[|es|].value))
  }

  /** What loading gives for such leaves. */
  ghost function Verdict(run: seq<Event>, n: nat, es: seq<Entry>): Loaded
    requires Read(run, n, es)
  {
    if Nameless(es) then Unpredictable
    else if |es| == |run| then T.LoadedFrom(es)
    else if Unsafe(es, run[|es|].path[n..], run[|es|].value) then Unpredictable
    else Loaded(DEFAULT)
  }

  /** Paths that fit the callback's buffer; outside the object, names without slashes. */
  ghost predicate Usual(events: seq<Event>, at: seq<string>) {
    forall k :: 0 <= k < |events| ==>
      Printable(events[k].path) && (Within(events[k].path, at) || PlainPath(events[k].path))
  }

  lemma {:induction false} UnderIsLonger(path: seq<PathElement>, at: seq<string>)
    requires Under(path, at)
    ensures |path| > |at| && path[|at|].Name?
    decreases |at|
  {
    if at != [] { UnderIsLonger(path[1..], at[1..]); }
  }

  /** The text of such a path goes on behind the text of the object's path. */
  lemma {:induction false} UnderInside(path: seq<PathElement>, at: seq<string>)
    requires PlainBase(at) && Under(path, at) && PathText(path).Some?
    ensures InsideText(BaseText(at), PathText(path).value)
    decreases |at|
  {
    hide U.TextOf;
    if at == [] {
      TextStarts(path);
    } else {
      var b := U.TextOf(at[0]).value;
      UnderInside(path[1..], at[1..]);
      var base, t := BaseText(at[1..]), PathText(path[1..]).value;
      StripPrefix("/" + b, base, t);
      assert PathText(path).value == "/" + b + t;
    }
  }

  lemma LeafWithin(at: seq<string>, m: Message, e: Event)
    requires PlainBase(at) && Within(e.path, at) && Printable(e.path) && Open(m) && Components(BaseText(at)) == |at|
    ensures OnEvent(BaseText(at), m, e) == Declare(|at|, Opened(m), e)
  {
    hide Declare, Components, BuildPath, Cut, PathText, BaseText, PlainBase, Printable, Under;
    PathBuilt(e.path);
    BaseStarts(at);
    PathPrints(e.path);
    if at != [] { UnderInside(e.path, at); }
  }

  lemma PathPrints(path: seq<PathElement>)
    requires Printable(path)
    ensures PathText(path).Some?
  {
  }

  lemma KeyIsNamed(k: Key)
    ensures KeyOf(KeyName(k)) == Some(k)
  {
    KeysAreNamed(KeyName(k), k);
  }

  /** The code that refuses a leaf. */
  ghost predicate Refusal(r: (Message, int), unsafe: bool) {
    r.1 != 0 && r.0.code != OK && (r.0.code == UNDEFINED <==> unsafe)
  }

  /** An own setting of the object. */
  lemma DeclareOwn(n: nat, m: Message, e: Event, entry: Entry)
    requires |e.path| >= n && Declares(e.path[n..], e.value, entry) && !entry.Application?
    ensures Declare(n, m, e) == match entry
      case LogFormat(format) => (m.(config := m.config.(logFormat := Some(format))), 0)
      case LogDirs(create) => (m.(config := m.config.(createLogDirs := create)), 0)
      case _ => (m, 1)
  {
    hide Field, Property;
    assert e.path[n..][0] == e.path[n];
  }

  lemma AssignSets(n: nat, m: Message, e: Event, s: Setting)
    requires m.config.apps != [] && |e.path| > n && Sets(e.path[n..], e.value, s)
    ensures Assign(n + 1, m, SettingKey(s), e) == (PutApp(m, Apply(Last(m.config.apps), s)), 0)
  {
    hide Field, SetText, SetFlag, SetNumber;
    if |e.path| > n + 1 { assert e.path[n..][1] == e.path[n + 1]; }
    if s.Args? { assert s.list == [s.list[0]]; }
  }

  /** A setting of an application. */
  lemma DeclareSetting(n: nat, m: Message, e: Event, name: string, s: Setting)
    requires |e.path| >= n && Declares(e.path[n..], e.value, Application(name, [s]))
    ensures var m' := Enter(m, name);
      Declare(n, m, e)
      == if m'.config.apps == [] then Refuse(m', UNDEFINED) else (PutApp(m', Apply(Last(m'.config.apps), s)), 0)
  {
    hide Field, Assign, KeyOf, Sets, Enter, Apply;
    var rest := e.path[n..];
    assert rest[0] == e.path[n] && rest[1] == e.path[n + 1] && rest[1..] == e.path[n + 1..];
    SetsKey(rest[1..], e.value, s);
    KeyIsNamed(SettingKey(s));
    var m' := Enter(m, name);
    if m'.config.apps != [] { AssignSets(n + 1, m', e, s); }
  }

  lemma SetsKey(path: seq<PathElement>, v: Value, s: Setting)
    requires path != [] && Sets(path, v, s)
    ensures Stands(path[0], KeyName(SettingKey(s)))
  {
  }

  /** A value sets something, or is refused. */
  lemma AssignReads(n: nat, m: Message, e: Event, k: Key)
    requires m.config.apps != [] && |e.path| > n && Stands(e.path[n], KeyName(k))
    ensures (exists s :: Sets(e.path[n..], e.value, s))
            || Refusal(Assign(n + 1, m, k, e), TakesText(k, e.path[n..]) && Overruns(e.value))
  {
    hide Field, SetText, SetFlag, SetNumber, KeyName;
    var path, v := e.path[n..], e.value;
    if |e.path| > n + 1 { assert path[1] == e.path[n + 1]; }
    if Assign(n + 1, m, k, e).1 == 0 {
      match k
      case IsText(t) => assert Sets(path, v, Text(t, Field(v.raw).text));
      case IsFlag(f) => assert Sets(path, v, Flag(f, v.b));
      case IsNumber(i) => assert Sets(path, v, Number(i, v.n));
      case IsArgs => assert Sets(path, v, Args([Field(v.raw).text]));
    }
  }

  /** So does a leaf of an application, if that has a place. */
  lemma PropertyReads(n: nat, m: Message, e: Event, done: seq<Entry>, name: string)
    requires |e.path| > n && (m.config.apps == [] <==> Placeless(done, name))
    ensures (exists s :: Sets(e.path[n..], e.value, s))
            || Refusal(Property(n, m, e), UnsafeIn(done, name, e.path[n..], e.value))
  {
    hide Field, Assign, KeyOf, Sets, Blocks, TakesText, KeyName;
    var path := e.path[n..];
    assert path[0] == e.path[n];
    if path[0].Name? && Field(path[0].raw).Fits? && KeyOf(Field(path[0].raw).text).Some? {
      var k := KeyOf(Field(path[0].raw).text).value;
      KeysAreNamed(Field(path[0].raw).text, k);
      OneKey(path[0], k);
      if m.config.apps != [] { AssignReads(n, m, e, k); }
    } else {
      NoKey(path[0]);
    }
  }

  lemma OneKey(e: PathElement, k: Key)
    requires Stands(e, KeyName(k))
    ensures forall j :: Stands(e, KeyName(j)) ==> j == k
  {
    hide Field, KeyName, KeyOf;
    forall j | Stands(e, KeyName(j)) ensures j == k {
      KeyIsNamed(j);
      KeyIsNamed(k);
    }
  }

  lemma NoKey(e: PathElement)
    requires e.Name? && Field(e.raw).Fits? ==> KeyOf(Field(e.raw).text).None?
    ensures forall j :: !Stands(e, KeyName(j))
  {
    hide Field, KeyName, KeyOf;
    forall j ensures !Stands(e, KeyName(j)) { KeyIsNamed(j); }
  }

  /** A leaf declares something, or is refused. */
  lemma DeclareReads(n: nat, m: Message, e: Event, done: seq<Entry>)
    requires |e.path| >= n && forall name :: Enter(m, name).config.apps == [] <==> Placeless(done, name)
    ensures Readable(e.path[n..], e.value) || Refusal(Declare(n, m, e), Unsafe(done, e.path[n..], e.value))
  {
    hide Field, Property, Enter, Placeless, UnsafeIn, Sets;
    var path, v := e.path[n..], e.value;
    if path != [] && path[0].Name? && Field(path[0].raw).Fits? {
      assert path[0] == e.path[n] && path[1..] == e.path[n + 1..];
      var name := Field(path[0].raw).text;
      if name == "ni_log_format" {
        if Declare(n, m, e).1 == 0 { assert Declares(path, v, LogFormat(Field(v.raw).text)); }
      } else if name == "ni_create_log_dirs" {
        if Declare(n, m, e).1 == 0 { assert Declares(path, v, LogDirs(v.b)); }
      } else if |path| == 1 {
        PropertyAlone(n + 1, Enter(m, name), e);
      } else {
        PropertyReads(n + 1, Enter(m, name), e, done, name);
        if s :| Sets(path[1..], v, s) { assert Declares(path, v, Application(name, [s])); }
        assert Stands(path[0], name) && IsAppName(name);
      }
    }
  }

  lemma PropertyAlone(n: nat, m: Message, e: Event)
    requires |e.path| == n
    ensures Refusal(Property(n, m, e), false)
  {
  }

  lemma PlaceIs(start: Message, done: seq<Entry>, name: string)
    requires IsStart(start)
    ensures Enter(Opened(Reached(start, done)), name).config.apps == [] <==> Placeless(done, name)
  {
    hide Reached, Blocks, LastFormat, LastDirs;
    ReachedIs(start, done);
  }

  lemma CountExact(at: seq<string>, path: seq<PathElement>)
    requires PlainBase(at) && Within(path, at) && |path| <= PATH_MAX
    ensures |path| >= |at| && Components(BaseText(at)) == |at|
  {
    hide BaseText, PlainBase;
    if at != [] { UnderIsLonger(path, at); }
    SlashesOfBase(at);
  }

  /** A leaf within the object, with its place on the path. */
  ghost predicate Met(e: Event, at: seq<string>) {
    PlainBase(at) && Within(e.path, at) && Printable(e.path) && |at| <= |e.path| <= PATH_MAX
  }

  lemma MetIs(at: seq<string>, m: Message, e: Event)
    requires Met(e, at) && Open(m)
    ensures |at| <= |e.path| && OnEvent(BaseText(at), m, e) == Declare(|at|, Opened(m), e)
  {
    hide OnEvent, Declare, Components, BaseText, PlainBase, Printable, Within;
    CountExact(at, e.path);
    LeafWithin(at, m, e);
  }

  /** A leaf that declares an entry adds it, if its application has a place. */
  lemma LeafDeclares(at: seq<string>, start: Message, done: seq<Entry>, e: Event, x: Entry)
    requires Met(e, at) && IsStart(start) && !Nameless(done) && Declares(e.path[|at|..], e.value, x)
    ensures Shown(x)
    ensures var r := OnEvent(BaseText(at), Reached(start, done), e);
      if Nameless(done + [x]) then r.1 != 0 && r.0.code == UNDEFINED else r == (Reached(start, done + [x]), 0)
  {
    hide OnEvent, Declare, Reached, Met, Sets, Stands, Holds, Blocks, Apply, BaseText;
    ReachedIs(start, done);
    MetIs(at, Reached(start, done), e);
    match x
    case Application(name, settings) =>
      var s := settings[0];
      assert settings == [s];
      DeclareSetting(|at|, Opened(Reached(start, done)), e, name, s);
      SetsSomething(e.path[|at|..][1..], e.value, s);
      ReachedApp(start, done, name, [s]);
      ApplyOne(Enter(Opened(Reached(start, done)), name), s);
    case _ =>
      DeclareOwn(|at|, Opened(Reached(start, done)), e, x);
      ReachedSetting(start, done, x);
      OneMore(done, x);
  }

  lemma SetsSomething(path: seq<PathElement>, v: Value, s: Setting)
    requires path != [] && Sets(path, v, s)
    ensures Visible([s])
  {
    hide Field;
  }

  lemma ApplyOne(m: Message, s: Setting)
    ensures m.config.apps != [] ==> ApplyAll(Last(m.config.apps), [s]) == Apply(Last(m.config.apps), s)
  {
    hide Apply;
    if m.config.apps != [] {
      var a := Last(m.config.apps);
      assert ApplyAll(Apply(a, s), [s][1..]) == Apply(a, s);
    }
  }

  /** A leaf that declares nothing ends the parse with its code. */
  lemma LeafRefused(at: seq<string>, start: Message, done: seq<Entry>, e: Event)
    requires Met(e, at) && IsStart(start) && !Readable(e.path[|at|..], e.value)
    ensures Refusal(OnEvent(BaseText(at), Reached(start, done), e), Unsafe(done, e.path[|at|..], e.value))
  {
    hide OnEvent, Declare, Reached, Met, Blocks, Enter, Placeless, BaseText, Readable, Unsafe;
    ReachedIs(start, done);
    MetIs(at, Reached(start, done), e);
    forall name ensures Enter(Opened(Reached(start, done)), name).config.apps == [] <==> Placeless(done, name) {
      PlaceIs(start, done, name);
    }
    DeclareReads(|at|, Opened(Reached(start, done)), e, done);
  }

  /** What is left of a parse that met the leaves of a run after those of earlier ones. */
  ghost predicate Ends(m: Message, run: seq<Event>, n: nat, done: seq<Entry>, es: seq<Entry>)
    requires Read(run, n, es)
  {
    if Nameless(done + es) then m.code == UNDEFINED
    else if |es| == |run| then
      m.config == Declared(done + es) && m.code != UNDEFINED && (m.code == OK || Declared(done + es) == DEFAULT)
    else
      m.code != OK && (m.code == UNDEFINED <==> Unsafe(done + es, run[|es|].path[n..], run[|es|].value))
  }

  ghost predicate AllMet(events: seq<Event>, at: seq<string>) {
    PlainBase(at) && Usual(events, at) && T.AllShort(events, PATH_MAX)
  }

  lemma MetFirst(events: seq<Event>, at: seq<string>)
    requires AllMet(events, at) && events != []
    ensures AllMet(events[1..], at)
    ensures Within(events[0].path, at) ==> Met(events[0], at)
    ensures !Within(events[0].path, at) ==> at != [] && PlainBase(at) && T.AllOutside([events[0]], at)
  {
    hide PlainBase, Printable, PlainPath, Under, BaseText;
    if Within(events[0].path, at) { CountExact(at, events[0].path); }
  }

  lemma ReadRest(run: seq<Event>, n: nat, es: seq<Entry>)
    requires Read(run, n, es) && es != []
    ensures |run[0].path| >= n && Declares(run[0].path[n..], run[0].value, es[0]) && Read(run[1..], n, es[1..])
  {
    hide Declares, Readable;
  }

  lemma EndsLater(m: Message, run: seq<Event>, n: nat, done: seq<Entry>, es: seq<Entry>)
    requires Read(run, n, es) && es != [] && Read(run[1..], n, es[1..])
    requires Ends(m, run[1..], n, done + [es[0]], es[1..])
    ensures Ends(m, run, n, done, es)
  {
    hide Declares, Readable, Nameless, Declared, Unsafe;
    assert done + [es[0]] + es[1..] == done + es;
    if |es| < |run| { assert run[1..][|es| - 1] == run[|es|]; }
  }

  lemma {:induction false} RunFeed(at: seq<string>, events: seq<Event>, start: Message, done: seq<Entry>,
                                   es: seq<Entry>)
    requires AllMet(events, at) && IsStart(start) && !Nameless(done) && Read(RunFrom(events, at), |at|, es)
    requires AnyShown(done) || events == [] || Within(events[0].path, at)
    ensures Ends(Feed(BaseText(at), events, Reached(start, done)).0, RunFrom(events, at), |at|, done, es)
    decreases |events|
  {
    hide OnEvent, AllMet, Read, Declares, Readable, Reached, Within, Nameless, Declared, BaseText, T.AllOutside,
      AnyShown, Shown, Unsafe;
    var m, run := Reached(start, done), RunFrom(events, at);
    assert done + [] == done;
    if run == [] {
      EndOfRun(at, events, start, done, es);
    } else {
      MetFirst(events, at);
      if es == [] {
        FirstRefused(at, events, start, done);
      } else {
        ReadRest(run, |at|, es);
        LeafDeclares(at, start, done, events[0], es[0]);
        OneMore(done, es[0]);
        assert run[1..] == RunFrom(events[1..], at);
        if Nameless(done + [es[0]]) {
          NamelessStays(done + [es[0]], es[1..]);
          assert done + [es[0]] + es[1..] == done + es;
          NamelessEnds(Feed(BaseText(at), events, m).0, run, |at|, done, es);
        } else {
          RunFeed(at, events[1..], start, done + [es[0]], es[1..]);
          EndsLater(Feed(BaseText(at), events, m).0, run, |at|, done, es);
        }
      }
    }
  }

  lemma NamelessEnds(m: Message, run: seq<Event>, n: nat, done: seq<Entry>, es: seq<Entry>)
    requires Read(run, n, es) && Nameless(done + es) && m.code == UNDEFINED
    ensures Ends(m, run, n, done, es)
  {
    hide Nameless, Read;
  }

  lemma FirstRefused(at: seq<string>, events: seq<Event>, start: Message, done: seq<Entry>)
    requires events != [] && Met(events[0], at) && IsStart(start) && !Nameless(done)
    requires Within(events[0].path, at) && Read(RunFrom(events, at), |at|, [])
    ensures Ends(Feed(BaseText(at), events, Reached(start, done)).0, RunFrom(events, at), |at|, done, [])
  {
    hide OnEvent, Met, Declares, Readable, Reached, Within, Nameless, Declared, BaseText, Unsafe;
    assert done + [] == done;
    assert RunFrom(events, at)[0] == events[0];
    LeafRefused(at, start, done, events[0]);
  }

  /** Behind the run nothing is changed any more. */
  lemma EndOfRun(at: seq<string>, events: seq<Event>, start: Message, done: seq<Entry>, es: seq<Entry>)
    requires AllMet(events, at) && IsStart(start) && !Nameless(done) && RunFrom(events, at) == []
    requires (AnyShown(done) || events == []) && Read([], |at|, es)
    ensures Ends(Feed(BaseText(at), events, Reached(start, done)).0, [], |at|, done, es)
  {
    hide OnEvent, AllMet, Declares, Readable, Reached, Within, Nameless, Declared, BaseText, T.AllOutside, AnyShown,
      Unsafe;
    assert done + [] == done;
    ReachedIs(start, done);
    T.ReachedCode(start, done);
    if events != [] {
      MetFirst(events, at);
      T.BehindRun(at, events, Reached(start, done));
    }
  }

  /** From the start, over the leaves before the run. */
  lemma {:induction false} FirstFeed(at: seq<string>, events: seq<Event>, start: Message, es: seq<Entry>)
    requires AllMet(events, at) && IsStart(start) && (at != [] ==> start.state.Searching?)
    requires Read(FirstRun(events, at), |at|, es)
    ensures Ends(Feed(BaseText(at), events, start).0, FirstRun(events, at), |at|, [], es)
    decreases |events|
  {
    hide OnEvent, AllMet, Declares, Readable, Reached, Within, BaseText, T.AllOutside, Declared, Unsafe;
    StartIsReached(start);
    T.NoBlocks();
    if events == [] {
      EndOfRun(at, events, start, [], es);
    } else {
      MetFirst(events, at);
      if Within(events[0].path, at) {
        RunFeed(at, events, start, [], es);
      } else {
        T.OutsideRun(at, [events[0]], start);
        FeedOne(BaseText(at), events[0], start);
        FirstFeed(at, events[1..], start, es);
      }
    }
  }

  /** Every run of leaves reads as some entries. */
  lemma {:induction false} EveryRun(run: seq<Event>, n: nat) returns (es: seq<Entry>)
    requires forall k :: 0 <= k < |run| ==> |run[k].path| >= n
    ensures Read(run, n, es)
    decreases |run|
  {
    hide Declares;
    es := [];
    if run != [] && Readable(run[0].path[n..], run[0].value) {
      var e :| Declares(run[0].path[n..], run[0].value, e);
      var rest := EveryRun(run[1..], n);
      es := [e] + rest;
      assert es[1..] == rest;
    }
  }

  lemma {:induction false} RunIsLong(events: seq<Event>, at: seq<string>)
    ensures forall k :: 0 <= k < |RunFrom(events, at)| ==> |RunFrom(events, at)[k].path| >= |at|
    decreases |events|
  {
    if events != [] && Within(events[0].path, at) {
      if at != [] { UnderIsLonger(events[0].path, at); }
      RunIsLong(events[1..], at);
    }
  }

  /** So does the one the loader looks at. */
  lemma {:induction false} FirstRunReads(events: seq<Event>, at: seq<string>) returns (es: seq<Entry>)
    ensures Read(FirstRun(events, at), |at|, es)
    decreases |events|
  {
    hide Within, Read;
    RunIsLong(events, at);
    if events != [] && !Within(events[0].path, at) {
      es := FirstRunReads(events[1..], at);
    } else {
      es := EveryRun(FirstRun(events, at), |at|);
    }
  }

  /** End to end, for every document whose leaves have usual paths: whether the object at
      the path is readable or not, where it stands and how often. The loader takes the
      first run of leaves within the path. Where they all declare entries it gives what
      those declare; otherwise the first that does not gives the default configuration,
      unless refusing it goes wrong. */
  lemma LoadsLeaves(t: string, d: Document, jsonObject: Option<string>, at: seq<string>, es: seq<Entry>)
    requires ValidDocument(d) && t == PrintDocument(d) && IsCString(t) && DocumentSlots(d) <= PATH_MAX
    requires PlainBase(at) && Usual(Leaves(d.root, []), at)
    requires jsonObject == Some(BaseText(at)) || (jsonObject == None && at == [])
    requires Read(FirstRun(Leaves(d.root, []), at), |at|, es)
    ensures Load(Some(t), jsonObject) == Verdict(FirstRun(Leaves(d.root, []), at), |at|, es)
  {
    hide ValidDocument, Run, Feed, P.Deliver, Handler, BaseText, Blocks, Nameless, FirstRun, Read, Leaves, Slots, Usual,
      PlainBase, Unsafe, Inv, IsCString, PrintDocument;
    var events, m := Leaves(d.root, []), StartMessage(jsonObject);
    T.PrintedRun(t, d);
    T.LeavesShort(d.root, [], PATH_MAX);
    BaseStarts(at);
    FeedIsDeliver(BaseText(at), events, m);
    FirstFeed(at, events, m, es);
    assert [] + es == es;
    T.CompleteMeans(Blocks(es));
  }
}
