/** The callback fed with the leaves of a configuration object builds what it declares. */
module ConfigLoading {
  import opened CText
  import opened JsonLexer
  import opened JsonMachine
  import opened JsonTokens
  import opened JsonDocument
  import opened PathString
  import opened Config
  import opened ConfigPaths
  import opened ConfigReading
  import P = JsonParser
  import U = Unescape

  /** The callback over a list of events, and whether it stopped the parser. */
  function Feed(base: string, events: seq<Event>, m: Message): (Message, bool) {
    if events == [] then (m, false)
    else
      var (m', rc) := OnEvent(base, m, events[0]);
      if rc != 0 then (m', true) else Feed(base, events[1..], m')
  }

  lemma {:induction false} FeedIsDeliver(base: string, events: seq<Event>, m: Message)
    ensures P.Deliver(events, Handler(base), m) == Feed(base, events, m)
    decreases |events|
  {
    hide OnEvent;
    if events != [] { FeedIsDeliver(base, events[1..], OnEvent(base, m, events[0]).0); }
  }

  lemma {:induction false} FeedAppend(base: string, a: seq<Event>, b: seq<Event>, m: Message)
    ensures Feed(base, a + b, m) == if Feed(base, a, m).1 then Feed(base, a, m) else Feed(base, b, Feed(base, a, m).0)
    decreases |a|
  {
    hide OnEvent;
    if a == [] {
      assert a + b == b;
    } else {
      assert (a + b)[1..] == a[1..] + b;
      FeedAppend(base, a[1..], b, OnEvent(base, m, a[0]).0);
    }
  }

  lemma FeedOne(base: string, e: Event, m: Message)
    ensures Feed(base, [e], m) == (OnEvent(base, m, e).0, OnEvent(base, m, e).1 != 0)
  {
    hide OnEvent;
    assert Feed(base, [e][1..], OnEvent(base, m, e).0) == (OnEvent(base, m, e).0, false);
  }

  /** A path whose text the callback's buffer holds. */
  ghost predicate Printable(path: seq<PathElement>) {
    PathText(path).Some? && |PathText(path).value| < BUFFER_SIZE && IsCString(PathText(path).value)
  }

  ghost predicate AllPrintable(events: seq<Event>) {
    forall k :: 0 <= k < |events| ==> Printable(events[k].path)
  }

  lemma AllSplit(a: seq<Event>, b: seq<Event>)
    requires AllPrintable(a + b)
    ensures AllPrintable(a) && AllPrintable(b)
  {
    assert forall k :: 0 <= k < |a| ==> (a + b)[k] == a[k];
    assert forall k :: 0 <= k < |b| ==> (a + b)[|a| + k] == b[k];
  }

  /** base is the text of the path of names at, and its slashes count them. */
  ghost predicate Placed(base: string, at: seq<string>) {
    Components(base) == |at| && (base == "" <==> at == []) && PathText(Names(at)) == Some(base)
  }

  ghost predicate Open(m: Message) {
    m.state.Searching? || (m.state.Found? && m.code == OK)
  }

  function Opened(m: Message): Message {
    m.(state := Found, code := OK)
  }

  /** The path of a leaf, as the callback sees it. */
  lemma PathBuilt(path: seq<PathElement>)
    requires Printable(path)
    ensures BuildPath("", path, BUFFER_SIZE) == Built(PathText(path).value)
    ensures Cut(PathText(path).value) == PathText(path).value
  {
    hide BuildPath, PathText;
    BuildExact("", path, BUFFER_SIZE);
  }

  lemma LeafInside(base: string, at: seq<string>, m: Message, e: Event)
    requires Placed(base, at) && Open(m) && Printable(e.path)
    requires |e.path| > |at| && e.path[..|at|] == Names(at) && e.path[|at|].Name?
    ensures OnEvent(base, m, e) == Declare(|at|, Opened(m), e)
  {
    hide Declare, Components, Inside, BuildPath, Cut, PathText, Printable;
    PathBuilt(e.path);
    PathInside(base, at, e.path);
  }

  lemma PathInside(base: string, at: seq<string>, path: seq<PathElement>)
    requires Placed(base, at) && Printable(path)
    requires |path| > |at| && path[..|at|] == Names(at) && path[|at|].Name?
    ensures Inside(base, PathText(path).value)
  {
    hide ElementText, Components, PathText, IsCString;
    var rest := path[|at|..];
    assert path == Names(at) + rest;
    PathTextAppend(Names(at), rest);
    TextStarts(rest);
    assert PathText(path).value[..|base|] == base;
  }

  lemma FieldPlain(raw: string, v: string)
    requires Plain(raw) == Some(v)
    ensures Field(raw) == Fits(v)
  {
    hide U.Text;
    FieldExact(raw);
  }

  predicate IsAppName(name: string) {
    name != "ni_log_format" && name != "ni_create_log_dirs"
  }

  lemma PropertyLeaf(base: string, at: seq<string>, app: string, name: string, m: Message, e: Event)
    requires Placed(base, at) && Open(m) && Printable(e.path)
    requires |e.path| > |at| && e.path[..|at|] == Names(at) && e.path[|at|] == Name(app)
    requires Plain(app) == Some(name) && IsAppName(name)
    ensures OnEvent(base, m, e) == Property(|at| + 1, Enter(Opened(m), name), e)
  {
    hide OnEvent, Property, Field, Plain, Placed, Printable;
    LeafInside(base, at, m, e);
    FieldPlain(app, name);
  }

  /** The callback is filling the last application, which has this name. */
  ghost predicate Filling(m: Message, name: string) {
    m.state.Found? && m.code == OK && m.currentApp == name && m.config.apps != []
  }

  predicate UnderKey(path: seq<PathElement>, at: seq<string>, app: string, key: string) {
    |path| >= |at| + 2 && path[..|at|] == Names(at) && path[|at|] == Name(app) && path[|at| + 1] == Name(key)
  }

  ghost predicate Keyed(app: string, name: string, key: string, k: Key) {
    && Plain(app) == Some(name) && IsAppName(name)
    && Plain(key).Some? && KeyOf(Plain(key).value) == Some(k)
  }

  lemma SettingLeaf(base: string, at: seq<string>, app: string, name: string, key: string, k: Key, m: Message, e: Event)
    requires Placed(base, at) && Filling(m, name) && Printable(e.path)
    requires UnderKey(e.path, at, app, key) && Keyed(app, name, key, k)
    ensures OnEvent(base, m, e) == Assign(|at| + 2, m, k, e)
  {
    hide OnEvent, Assign, Field, Plain, Placed, Printable, KeyOf;
    PropertyLeaf(base, at, app, name, m, e);
    FieldPlain(key, Plain(key).value);
  }

  function Apply(a: App, s: Setting): App {
    match s
    case Text(t, v) => SetText(a, t, v)
    case Flag(f, b) => SetFlag(a, f, b)
    case Number(n, k) => SetNumber(a, n, k)
    case Args(list) => a.(args := a.args + list)
  }

  function ApplyAll(a: App, s: seq<Setting>): App
    decreases |s|
  {
    if s == [] then a else ApplyAll(Apply(a, s[0]), s[1..])
  }

  lemma ScalarRun(base: string, at: seq<string>, app: string, name: string, key: string, k: Key, m: Message,
                   path: seq<PathElement>, l: Literal)
    requires Placed(base, at) && Filling(m, name) && Printable(path)
    requires UnderKey(path, at, app, key) && |path| == |at| + 2
    requires Keyed(app, name, key, k) && ReadLiteral(k, l).Some?
    ensures Feed(base, [Event(path, LiteralValue(l))], m)
         == (PutApp(m, Apply(Last(m.config.apps), ReadLiteral(k, l).value)), false)
  {
    hide OnEvent, Field, Plain, Placed, Printable, KeyOf, Feed, SetText, SetFlag, SetNumber;
    var e := Event(path, LiteralValue(l));
    SettingLeaf(base, at, app, name, key, k, m, e);
    FeedOne(base, e, m);
    if l.LString? { FieldPlain(l.raw, Plain(l.raw).value); }
  }

  lemma ArgRun(base: string, at: seq<string>, app: string, name: string, key: string, m: Message,
               path: seq<PathElement>, raw: string)
    requires Placed(base, at) && Filling(m, name) && Printable(path) && UnderKey(path, at, app, key)
    requires |path| == |at| + 3 && path[|at| + 2].Index? && Keyed(app, name, key, IsArgs) && Plain(raw).Some?
    ensures Feed(base, [Event(path, Str(raw))], m)
         == (PutApp(m, Apply(Last(m.config.apps), Args([Plain(raw).value]))), false)
  {
    hide OnEvent, Field, Plain, Placed, Printable, KeyOf, Feed;
    var e := Event(path, Str(raw));
    SettingLeaf(base, at, app, name, key, IsArgs, m, e);
    FeedOne(base, e, m);
    FieldPlain(raw, Plain(raw).value);
  }

  lemma PutTwice(m: Message, a: App, b: App)
    requires m.config.apps != []
    ensures PutApp(m, a).config.apps != [] && Last(PutApp(m, a).config.apps) == a
    ensures PutApp(PutApp(m, a), b) == PutApp(m, b) && PutApp(m, Last(m.config.apps)) == m
  {
  }

  lemma PathStep(at: seq<string>, app: string, key: string, k: nat)
    ensures UnderKey(Names(at) + [Name(app)] + [Name(key)], at, app, key)
    ensures UnderKey(Names(at) + [Name(app)] + [Name(key)] + [Index(k)], at, app, key)
    ensures (Names(at) + [Name(app)] + [Name(key)] + [Index(k)])[|at| + 2] == Index(k)
  {
  }

  lemma {:induction false} ArgsRun(base: string, at: seq<string>, app: string, name: string, key: string,
                                   items: Items, k: nat, m: Message)
    requires Placed(base, at) && Filling(m, name) && Keyed(app, name, key, IsArgs) && ReadArgs(items).Some?
    requires AllPrintable(ItemLeaves(items, Names(at) + [Name(app)] + [Name(key)], k))
    ensures Feed(base, ItemLeaves(items, Names(at) + [Name(app)] + [Name(key)], k), m)
         == (PutApp(m, Apply(Last(m.config.apps), Args(ReadArgs(items).value))), false)
    decreases items
  {
    hide OnEvent, Field, Plain, Placed, Printable, Keyed, Feed;
    var path := Names(at) + [Name(app)] + [Name(key)];
    var a := Last(m.config.apps);
    PutTwice(m, a, a);
    match items
    case NoItem(_) =>
      assert a.args + [] == a.args;
      FeedNothing(base, m);
    case Item(_, value, _, more) =>
      var e := Event(path + [Index(k)], Str(value.l.raw));
      var v := Plain(value.l.raw).value;
      var rest := match more case EndItems => [] case NextItem(r) => ItemLeaves(r, path, k + 1);
      assert Leaves(value, path + [Index(k)]) == [e];
      assert ItemLeaves(items, path, k) == [e] + rest;
      AllSplit([e], rest);
      assert Printable([e][0].path);
      PathStep(at, app, key, k);
      ArgRun(base, at, app, name, key, m, path + [Index(k)], value.l.raw);
      FeedAppend(base, [e], rest, m);
      var b := Apply(a, Args([v]));
      if more.NextItem? {
        ArgsRun(base, at, app, name, key, more.items, k + 1, PutApp(m, b));
        PutTwice(m, b, Apply(b, Args(ReadArgs(more.items).value)));
        assert a.args + [v] + ReadArgs(more.items).value == a.args + ([v] + ReadArgs(more.items).value);
      } else {
        FeedNothing(base, PutApp(m, b));
      }
  }

  lemma FeedNothing(base: string, m: Message)
    ensures Feed(base, [], m) == (m, false)
  {
  }

  lemma SettingRun(base: string, at: seq<string>, app: string, name: string, key: string, v: Json, m: Message)
    requires Placed(base, at) && Filling(m, name) && Plain(app) == Some(name) && IsAppName(name)
    requires ReadSetting(key, v).Some?
    requires AllPrintable(Leaves(v, Names(at) + [Name(app)] + [Name(key)]))
    ensures Feed(base, Leaves(v, Names(at) + [Name(app)] + [Name(key)]), m)
         == (PutApp(m, Apply(Last(m.config.apps), ReadSetting(key, v).value)), false)
  {
    hide OnEvent, Field, Plain, Placed, Printable, Feed, KeyOf, ReadLiteral, Apply;
    var path := Names(at) + [Name(app)] + [Name(key)];
    var k := KeyOf(Plain(key).value).value;
    PathStep(at, app, key, 0);
    match v
    case Lit(l) =>
      assert Printable([Event(path, LiteralValue(l))][0].path);
      ScalarRun(base, at, app, name, key, k, m, path, l);
    case Array(items) => ArgsRun(base, at, app, name, key, items, 0, m);
  }

  lemma {:induction false} SettingsRun(base: string, at: seq<string>, app: string, name: string, s: Members, m: Message)
    requires Placed(base, at) && Filling(m, name) && Plain(app) == Some(name) && IsAppName(name)
    requires ReadSettings(s).Some?
    requires AllPrintable(MemberLeaves(s, Names(at) + [Name(app)]))
    ensures Feed(base, MemberLeaves(s, Names(at) + [Name(app)]), m)
         == (PutApp(m, ApplyAll(Last(m.config.apps), ReadSettings(s).value)), false)
    decreases s
  {
    hide OnEvent, Plain, Placed, AllPrintable, Feed, Apply, ReadSetting, Leaves;
    var path := Names(at) + [Name(app)];
    var a := Last(m.config.apps);
    PutTwice(m, a, a);
    match s
    case NoMember(_) => FeedNothing(base, m);
    case Member(_, key, _, _, v, _, more) =>
      var events := Leaves(v, path + [Name(key)]);
      var rest := match more case EndMembers => [] case NextMember(r) => MemberLeaves(r, path);
      AllSplit(events, rest);
      SettingRun(base, at, app, name, key, v, m);
      FeedAppend(base, events, rest, m);
      var first := ReadSetting(key, v).value;
      var b := Apply(a, first);
      assert ApplyAll(b, []) == b;
      if more.NextMember? {
        SettingsRun(base, at, app, name, more.members, PutApp(m, b));
        PutTwice(m, b, ApplyAll(b, ReadSettings(more.members).value));
        assert ([first] + ReadSettings(more.members).value)[1..] == ReadSettings(more.members).value;
      } else {
        FeedNothing(base, PutApp(m, b));
        assert [first][1..] == [];
      }
  }

  /** The first leaf of an application enters it. */
  lemma FirstLeaf(base: string, at: seq<string>, app: string, name: string, events: seq<Event>, m: Message)
    requires Placed(base, at) && Open(m) && Plain(app) == Some(name) && IsAppName(name)
    requires events != [] && AllPrintable(events)
    requires |events[0].path| > |at| && events[0].path[..|at|] == Names(at) && events[0].path[|at|] == Name(app)
    ensures Feed(base, events, m) == Feed(base, events, Enter(Opened(m), name))
  {
    hide OnEvent, Plain, Placed, Printable, Property;
    PropertyLeaf(base, at, app, name, m, events[0]);
    PropertyLeaf(base, at, app, name, Enter(Opened(m), name), events[0]);
  }

  /** Every leaf below a path extends it. */
  ghost predicate AllBelow(events: seq<Event>, path: seq<PathElement>) {
    forall k :: 0 <= k < |events| ==> |events[k].path| >= |path| && events[k].path[..|path|] == path
  }

  lemma BelowAppend(a: seq<Event>, b: seq<Event>, path: seq<PathElement>)
    requires AllBelow(a, path) && AllBelow(b, path)
    ensures AllBelow(a + b, path)
  {
  }

  lemma BelowShorter(a: seq<Event>, path: seq<PathElement>, e: PathElement)
    requires AllBelow(a, path + [e])
    ensures AllBelow(a, path)
  {
    forall k | 0 <= k < |a| ensures |a[k].path| >= |path| && a[k].path[..|path|] == path {
      assert a[k].path[..|path|] == a[k].path[..|path + [e]|][..|path|];
    }
  }

  lemma {:induction false} LeavesBelow(v: Json, path: seq<PathElement>)
    ensures AllBelow(Leaves(v, path), path)
    decreases v
  {
    match v
    case Lit(l) =>
    case Object(members) => MembersBelow(members, path);
    case Array(items) => ItemsBelow(items, path, 0);
  }

  lemma {:induction false} MembersBelow(m: Members, path: seq<PathElement>)
    ensures AllBelow(MemberLeaves(m, path), path)
    decreases m
  {
    hide AllBelow;
    assert AllBelow([], path) by { NothingBelow(path); }
    match m
    case NoMember(_) =>
    case Member(_, name, _, _, v, _, more) =>
      LeavesBelow(v, path + [Name(name)]);
      BelowShorter(Leaves(v, path + [Name(name)]), path, Name(name));
      if more.NextMember? { MembersBelow(more.members, path); }
      var rest := match more case EndMembers => [] case NextMember(r) => MemberLeaves(r, path);
      BelowAppend(Leaves(v, path + [Name(name)]), rest, path);
  }

  lemma {:induction false} ItemsBelow(m: Items, path: seq<PathElement>, k: nat)
    ensures AllBelow(ItemLeaves(m, path, k), path)
    decreases m
  {
    hide AllBelow;
    assert AllBelow([], path) by { NothingBelow(path); }
    match m
    case NoItem(_) =>
    case Item(_, v, _, more) =>
      LeavesBelow(v, path + [Index(k)]);
      BelowShorter(Leaves(v, path + [Index(k)]), path, Index(k));
      if more.NextItem? { ItemsBelow(more.items, path, k + 1); }
      var rest := match more case EndItems => [] case NextItem(r) => ItemLeaves(r, path, k + 1);
      BelowAppend(Leaves(v, path + [Index(k)]), rest, path);
  }

  lemma NothingBelow(path: seq<PathElement>)
    ensures AllBelow([], path)
  {
  }

  /** Visible settings have leaves. */
  lemma {:induction false} VisibleLeaves(s: Members, path: seq<PathElement>)
    requires ReadSettings(s).Some? && Visible(ReadSettings(s).value)
    ensures MemberLeaves(s, path) != []
    decreases s
  {
    match s
    case Member(_, key, _, _, v, _, more) =>
      if ReadSetting(key, v).value == Args([]) {
        assert ReadSettings(s).value[0] == Args([]);
        if more.NextMember? {
          assert ReadSettings(s).value[1..] == ReadSettings(more.members).value;
          VisibleLeaves(more.members, path);
        }
      } else {
        SettingLeaves(key, v, path + [Name(key)]);
      }
  }

  lemma SettingLeaves(key: string, v: Json, path: seq<PathElement>)
    requires ReadSetting(key, v).Some? && ReadSetting(key, v).value != Args([])
    ensures Leaves(v, path) != []
  {
    hide Plain, KeyOf;
    match v
    case Lit(_) =>
    case Array(items) =>
      assert items.Item?;
      assert Leaves(items.value, path + [Index(0)]) != [];
  }

  function GetText(a: App, k: TextKey): Option<string> {
    match k
    case PathKey => a.path
    case PrefixKey => a.prefixLogs
    case StdoutKey => a.stdoutPath
    case StderrKey => a.stderrPath
  }

  function GetFlag(a: App, k: FlagKey): bool {
    match k
    case AutorestartKey => a.autorestart
    case AutostartKey => a.autostart
    case StdoutPassKey => a.stdoutPassthrough
    case StderrPassKey => a.stderrPassthrough
  }

  function GetNumber(a: App, k: NumberKey): int {
    match k
    case StdoutSizeKey => a.stdoutSize
    case StdoutCountKey => a.stdoutCount
    case StderrSizeKey => a.stderrSize
    case StderrCountKey => a.stderrCount
  }

  lemma ApplyOneText(a: App, s: Setting, k: TextKey)
    ensures GetText(Apply(a, s), k) == if s.Text? && s.t == k then Some(s.v) else GetText(a, k)
  {
  }

  /** Settings applied in turn leave the last value of each key. */
  lemma {:induction false} LastTextWins(a: App, s: seq<Setting>, k: TextKey)
    ensures GetText(ApplyAll(a, s), k) == if LastText(s, k).Some? then LastText(s, k) else GetText(a, k)
    decreases |s|
  {
    hide Apply, GetText;
    if s != [] {
      ApplyOneText(a, s[0], k);
      LastTextWins(Apply(a, s[0]), s[1..], k);
    }
  }

  lemma ApplyOneFlag(a: App, s: Setting, k: FlagKey)
    ensures GetFlag(Apply(a, s), k) == if s.Flag? && s.f == k then s.b else GetFlag(a, k)
  {
  }

  lemma {:induction false} LastFlagWins(a: App, s: seq<Setting>, k: FlagKey)
    ensures GetFlag(ApplyAll(a, s), k) == Or(LastFlag(s, k), GetFlag(a, k))
    decreases |s|
  {
    hide Apply, GetFlag;
    if s != [] {
      ApplyOneFlag(a, s[0], k);
      LastFlagWins(Apply(a, s[0]), s[1..], k);
    }
  }

  lemma ApplyOneNumber(a: App, s: Setting, k: NumberKey)
    ensures GetNumber(Apply(a, s), k) == if s.Number? && s.n == k then s.k else GetNumber(a, k)
  {
  }

  lemma {:induction false} LastNumberWins(a: App, s: seq<Setting>, k: NumberKey)
    ensures GetNumber(ApplyAll(a, s), k) == Or(LastNumber(s, k), GetNumber(a, k))
    decreases |s|
  {
    hide Apply, GetNumber;
    if s != [] {
      ApplyOneNumber(a, s[0], k);
      LastNumberWins(Apply(a, s[0]), s[1..], k);
    }
  }

  lemma ApplyOneArgs(a: App, s: Setting)
    ensures Apply(a, s).name == a.name && Apply(a, s).args == a.args + if s.Args? then s.list else []
  {
    assert a.args + [] == a.args;
  }

  /** They keep the name and add up their arguments. */
  lemma {:induction false} ArgsAddUp(a: App, s: seq<Setting>)
    ensures ApplyAll(a, s).name == a.name && ApplyAll(a, s).args == a.args + AllArgs(s)
    decreases |s|
  {
    hide Apply;
    assert a.args + [] == a.args;
    if s != [] {
      ApplyOneArgs(a, s[0]);
      ArgsAddUp(Apply(a, s[0]), s[1..]);
      var list := if s[0].Args? then s[0].list else [];
      assert a.args + list + AllArgs(s[1..]) == a.args + (list + AllArgs(s[1..]));
    }
  }

  /** An application filled from the defaults is the one its settings declare. */
  lemma AppliedIsDeclared(name: string, s: seq<Setting>)
    ensures ApplyAll(DefaultApp(name), s) == AppOf(name, s)
  {
    hide ApplyAll, LastText, LastFlag, LastNumber, AllArgs;
    var d := DefaultApp(name);
    LastTextWins(d, s, PathKey);
    LastTextWins(d, s, PrefixKey);
    LastTextWins(d, s, StdoutKey);
    LastTextWins(d, s, StderrKey);
    LastFlagWins(d, s, AutorestartKey);
    LastFlagWins(d, s, AutostartKey);
    LastFlagWins(d, s, StdoutPassKey);
    LastFlagWins(d, s, StderrPassKey);
    LastNumberWins(d, s, StdoutSizeKey);
    LastNumberWins(d, s, StdoutCountKey);
    LastNumberWins(d, s, StderrSizeKey);
    LastNumberWins(d, s, StderrCountKey);
    ArgsAddUp(d, s);
    assert [] + AllArgs(s) == AllArgs(s);
  }
}
