/** From the printed text of a configuration to the applications it declares. */
module ConfigTheorem {
  import opened CText
  import opened JsonMachine
  import opened JsonDocument
  import opened PathString
  import opened Config
  import opened ConfigPaths
  import opened ConfigReading
  import opened ConfigLoading
  import opened ConfigEntries
  import JsonParsing
  import U = Unescape
  import P = JsonParser

  /** A leaf that is not below the object, under names without slashes. */
  ghost predicate Outside(e: Event, at: seq<string>) {
    Printable(e.path) && PlainPath(e.path) && !Under(e.path, at)
  }

  ghost predicate AllOutside(events: seq<Event>, at: seq<string>) {
    forall k :: 0 <= k < |events| ==> Outside(events[k], at)
  }

  lemma OutsideLeaf(at: seq<string>, m: Message, e: Event)
    requires at != [] && PlainBase(at) && Outside(e, at) && !m.state.Finished?
    ensures OnEvent(BaseText(at), m, e) == if m.state.Found? then (m.(state := Finished, code := OK), 1) else (m, 0)
  {
    hide Declare, Components, BuildPath, Cut, PathText, BaseText, PlainBase, PlainPath, Under;
    PathBuilt(e.path);
    PrefixIsPath(at, e.path);
    BaseStarts(at);
  }

  lemma {:induction false} OutsideRun(at: seq<string>, events: seq<Event>, m: Message)
    requires at != [] && PlainBase(at) && AllOutside(events, at) && m.state.Searching?
    ensures Feed(BaseText(at), events, m) == (m, false)
    decreases |events|
  {
    hide OnEvent, Outside, BaseText, PlainBase;
    if events != [] {
      OutsideLeaf(at, m, events[0]);
      OutsideRun(at, events[1..], m);
    }
  }

  /** The part of a document that config_init looks at: what comes before the object,
      the object's own leaves, and the first leaf after it. */
  ghost predicate Reaches(events: seq<Event>, at: seq<string>, c: Members, before: seq<Event>, behind: seq<Event>) {
    && PlainBase(at)
    && events == before + (MemberLeaves(c, Names(at)) + behind)
    && AllPrintable(MemberLeaves(c, Names(at)))
    && (at == [] ==> before == [] && behind == [])
    && AllOutside(before, at)
    && AllOutside(if MemberLeaves(c, Names(at)) == [] || behind == [] then behind else [behind[0]], at)
  }

  /** What the parse of such events leaves: the object's entries on the empty
      configuration, or a stop at an application without room. */
  lemma FeedReaches(events: seq<Event>, at: seq<string>, c: Members, before: seq<Event>, behind: seq<Event>, m: Message)
    requires Reaches(events, at, c, before, behind) && ReadEntries(c).Some?
    requires Components(BaseText(at)) == |at| || MemberLeaves(c, Names(at)) == []
    requires m == (if at == [] && m.state.Found? then StartMessage(None) else StartMessage(Some("")))
    ensures var r := Feed(BaseText(at), events, m).0; var entries := ReadEntries(c).value;
      if Nameless(entries) then r.code == UNDEFINED
      else r.config == Declared(entries) && r.code != UNDEFINED && (r.code == OK || Declared(entries) == DEFAULT)
  {
    hide OnEvent, Feed, AllPrintable, AllOutside, BaseText, PlainBase, Printable, Components, Declared, Nameless,
      ReadEntries, MemberLeaves;
    var base := BaseText(at);
    var entries := ReadEntries(c).value;
    var mid := MemberLeaves(c, Names(at));
    BaseStarts(at);
    FeedNothing(base, m);
    if at != [] { OutsideRun(at, before, m); }
    FeedAppend(base, before, mid + behind, m);
    FeedAppend(base, mid, behind, m);
    MidRun(at, c, m);
    ShownLeaves(c, Names(at));
    ReachedIs(m, entries);
    ReachedCode(m, entries);
    if !Nameless(entries) {
      FeedNothing(base, Reached(m, entries));
      if behind != [] && mid == [] {
        OutsideRun(at, behind, m);
      } else if behind != [] {
        BehindRun(at, behind, Reached(m, entries));
      }
    }
  }

  lemma ReachedCode(start: Message, entries: seq<Entry>)
    requires IsStart(start)
    ensures AnyShown(entries) ==> Reached(start, entries).state.Found? && Reached(start, entries).code == OK
    ensures !AnyShown(entries) ==>
      Reached(start, entries) == start && Declared(entries) == DEFAULT && !Nameless(entries)
  {
    hide Declared;
    if !AnyShown(entries) { NothingShown(entries); }
  }

  lemma MidRun(at: seq<string>, c: Members, m: Message)
    requires PlainBase(at) && ReadEntries(c).Some? && AllPrintable(MemberLeaves(c, Names(at))) && IsStart(m)
    requires Components(BaseText(at)) == |at| || MemberLeaves(c, Names(at)) == []
    ensures var r := Feed(BaseText(at), MemberLeaves(c, Names(at)), m); var entries := ReadEntries(c).value;
      if Nameless(entries) then r.1 && r.0.code == UNDEFINED else r == (Reached(m, entries), false)
  {
    hide OnEvent, Feed, AllPrintable, BaseText, PlainBase, Components, PathText, ReadEntries, MemberLeaves, Reached,
      Blocks;
    if MemberLeaves(c, Names(at)) == [] {
      ShownLeaves(c, Names(at));
      ReachedCode(m, ReadEntries(c).value);
      FeedNothing(BaseText(at), m);
    } else {
      BaseStarts(at);
      BaseIsPathText(at, Names(at));
      StartIsReached(m);
      NoBlocks();
      EntriesRun(BaseText(at), at, c, m, []);
      assert [] + ReadEntries(c).value == ReadEntries(c).value;
    }
  }

  lemma NoBlocks()
    ensures Blocks([]) == []
  {
  }

  lemma BehindRun(at: seq<string>, behind: seq<Event>, m: Message)
    requires at != [] && PlainBase(at) && behind != [] && AllOutside([behind[0]], at) && m.state.Found? && m.code == OK
    ensures Feed(BaseText(at), behind, m) == (m.(state := Finished), true)
  {
    hide OnEvent, Outside, BaseText, PlainBase;
    assert Outside([behind[0]][0], at);
    OutsideLeaf(at, m, behind[0]);
  }

  /** Leaving the object for good stops the parser; were it called again, so would that. */
  lemma FinishedStops(base: string, m: Message, e: Event)
    requires BuildPath("", e.path, 1024).Built?
    ensures OnEvent(base, m, e).0.state.Finished? ==> OnEvent(base, m, e).1 == 1 && OnEvent(base, m, e).0.code == 0
  {
    hide Declare, BuildPath, Inside, Components, Cut;
    DeclareStays(Components(base), m, e);
    DeclareStays(Components(base), m.(state := Found, code := OK), e);
  }

  lemma DeclareStays(at: nat, m: Message, e: Event)
    ensures Declare(at, m, e).0.state == m.state
  {
    hide Field, KeyOf, Assign;
    if at < |e.path| && e.path[at].Name? && Field(e.path[at].raw).Fits? {
      PropertyStays(at + 1, Enter(m, Field(e.path[at].raw).text), e);
    }
  }

  lemma PropertyStays(at: nat, m: Message, e: Event)
    ensures Property(at, m, e).0.state == m.state
  {
    hide Field, KeyOf, SetText, SetFlag, SetNumber;
  }

  ghost predicate AllShort(events: seq<Event>, n: nat) {
    forall k :: 0 <= k < |events| ==> |events[k].path| <= n
  }

  /** A leaf's path is no longer than the slots its document needs. */
  lemma {:induction false} LeavesShort(v: Json, path: seq<PathElement>, n: nat)
    requires |path| + Slots(v) <= n
    ensures AllShort(Leaves(v, path), n)
    decreases v
  {
    match v
    case Lit(_) =>
    case Object(members) => MembersShort(members, path, n);
    case Array(items) => ItemsShort(items, path, 0, n);
  }

  lemma {:induction false} MembersShort(m: Members, path: seq<PathElement>, n: nat)
    requires |path| + 1 + MemberSlots(m) <= n
    ensures AllShort(MemberLeaves(m, path), n)
    decreases m
  {
    match m
    case NoMember(_) =>
    case Member(_, name, _, _, v, _, more) =>
      LeavesShort(v, path + [Name(name)], n);
      if more.NextMember? { MembersShort(more.members, path, n); }
  }

  lemma {:induction false} ItemsShort(m: Items, path: seq<PathElement>, k: nat, n: nat)
    requires |path| + 1 + ItemSlots(m) <= n
    ensures AllShort(ItemLeaves(m, path, k), n)
    decreases m
  {
    match m
    case NoItem(_) =>
    case Item(_, v, _, more) =>
      LeavesShort(v, path + [Index(k)], n);
      if more.NextItem? { ItemsShort(more.items, path, k + 1, n); }
  }

  /** The eight-bit count of components is exact wherever the object has a leaf. */
  lemma ComponentsExact(d: Document, at: seq<string>, c: Members, before: seq<Event>, behind: seq<Event>)
    requires DocumentSlots(d) <= PATH_MAX && Reaches(Leaves(d.root, []), at, c, before, behind)
    ensures Components(BaseText(at)) == |at| || MemberLeaves(c, Names(at)) == []
  {
    hide Slots, Leaves, AllPrintable, AllOutside, PlainBase, BaseText, MemberLeaves, GapSlots;
    var mid := MemberLeaves(c, Names(at));
    SlashesOfBase(at);
    if mid != [] {
      LeavesShort(d.root, [], PATH_MAX);
      MembersBelow(c, Names(at));
      assert Leaves(d.root, [])[|before|] == mid[0];
    }
  }

  lemma {:induction false} CompleteMeans(blocks: seq<Block>)
    ensures Complete(AppsOf(blocks)) <==> AllHavePaths(blocks)
    decreases |blocks|
  {
    hide LastText, LastFlag, LastNumber, AllArgs;
    if blocks != [] {
      CompleteMeans(Pop(blocks));
      assert Pop(AppsOf(blocks)) == AppsOf(Pop(blocks));
    }
  }

  /** What loading gives for the entries of a configuration object: what they declare, or
      the default configuration when an application lacks its path. */
  ghost function LoadedFrom(entries: seq<Entry>): Loaded {
    if Nameless(entries) then Unpredictable
    else if AllHavePaths(Blocks(entries)) then Loaded(Declared(entries))
    else Loaded(DEFAULT)
  }

  /** What the parser makes of the text of a document. */
  lemma PrintedRun(t: string, d: Document)
    requires ValidDocument(d) && t == PrintDocument(d) && IsCString(t) && DocumentSlots(d) <= PATH_MAX
    ensures Inv(t, PATH_MAX, START) && Run(t, PATH_MAX, START) == Result(Leaves(d.root, []), Success)
  {
    hide ValidDocument, PrintDocument, DocumentSlots, Run, Inv, Leaves, IsCString;
    JsonParsing.ParsePrinted(t, PATH_MAX, d);
  }

  /** End to end. For every document, with any layout, whose leaves lead to a readable
      configuration object under a path of plain names: loading its text gives exactly
      what the entries of the object declare. */
  lemma LoadsDeclared(t: string, d: Document, jsonObject: Option<string>, at: seq<string>, c: Members,
                      before: seq<Event>, behind: seq<Event>)
    requires ValidDocument(d) && t == PrintDocument(d) && IsCString(t) && DocumentSlots(d) <= PATH_MAX
    requires Reaches(Leaves(d.root, []), at, c, before, behind)
    requires jsonObject == Some(BaseText(at)) || (jsonObject == None && at == [])
    requires ReadEntries(c).Some?
    ensures Load(Some(t), jsonObject) == LoadedFrom(ReadEntries(c).value)
  {
    hide ValidDocument, Run, DocumentSlots, Reaches, Feed, P.Deliver, Handler, BaseText, ReadEntries, Blocks, Nameless;
    var entries := ReadEntries(c).value;
    PrintedRun(t, d);
    ComponentsExact(d, at, c, before, behind);
    ReachesBase(Leaves(d.root, []), at, c, before, behind);
    var m := StartMessage(jsonObject);
    FeedIsDeliver(BaseText(at), Leaves(d.root, []), m);
    FeedReaches(Leaves(d.root, []), at, c, before, behind, m);
    CompleteMeans(Blocks(entries));
  }

  lemma ReachesBase(events: seq<Event>, at: seq<string>, c: Members, before: seq<Event>, behind: seq<Event>)
    requires Reaches(events, at, c, before, behind)
    ensures PlainBase(at) && (at == [] ==> BaseText(at) == "")
  {
  }

  /** No member of the list has the name. */
  ghost predicate Elsewhere(m: Members, name: Option<string>)
    decreases m
  {
    m.NoMember? || (U.TextOf(m.name) != name && (m.more.NextMember? ==> Elsewhere(m.more.members, name)))
  }

  /** The object c sits inside nested objects, each a member value of the one around it;
      in each of them exactly one member has the wanted name. */
  ghost predicate Nested(m: Members, at: seq<string>, c: Members)
    decreases m
  {
    if at == [] then m == c
    else if m.NoMember? then false
    else if U.TextOf(m.name) == U.TextOf(at[0]) then
      && m.name == at[0] && m.value.Object? && Nested(m.value.members, at[1..], c)
      && (m.more.NextMember? ==> Elsewhere(m.more.members, U.TextOf(at[0])))
    else m.more.NextMember? && Nested(m.more.members, at, c)
  }

  /** Leaves below a path, none of which goes on through the named objects. */
  ghost predicate AllAway(events: seq<Event>, path: seq<PathElement>, at: seq<string>) {
    AllBelow(events, path) && forall k :: 0 <= k < |events| ==> !Under(events[k].path[|path|..], at)
  }

  lemma AwayAppend(a: seq<Event>, b: seq<Event>, path: seq<PathElement>, at: seq<string>)
    requires AllAway(a, path, at) && AllAway(b, path, at)
    ensures AllAway(a + b, path, at)
  {
    hide Under;
    BelowAppend(a, b, path);
  }

  lemma NothingAway(path: seq<PathElement>, at: seq<string>)
    ensures AllAway([], path, at)
  {
  }

  /** Leaves that go on into the member name, but not through the objects behind it. */
  lemma AwayInside(events: seq<Event>, path: seq<PathElement>, name: string, at: seq<string>)
    requires at != [] && AllAway(events, path + [Name(name)], at[1..])
    ensures AllAway(events, path, at)
  {
    BelowShorter(events, path, Name(name));
    forall k | 0 <= k < |events| ensures !Under(events[k].path[|path|..], at) {
      assert events[k].path[|path|..][1..] == events[k].path[|path + [Name(name)]|..];
    }
  }

  /** Leaves of a member of another name. */
  lemma AwayBeside(v: Json, path: seq<PathElement>, name: string, at: seq<string>)
    requires at != [] && U.TextOf(name) != U.TextOf(at[0])
    ensures AllAway(Leaves(v, path + [Name(name)]), path, at)
  {
    hide Leaves;
    var events := Leaves(v, path + [Name(name)]);
    LeavesBelow(v, path + [Name(name)]);
    BelowShorter(events, path, Name(name));
    forall k | 0 <= k < |events| ensures !Under(events[k].path[|path|..], at) {
      assert events[k].path[..|path| + 1] == path + [Name(name)];
      assert events[k].path[|path|..][0] == events[k].path[..|path| + 1][|path|] == Name(name);
    }
  }

  lemma {:induction false} AwayElsewhere(m: Members, path: seq<PathElement>, at: seq<string>)
    requires at != [] && Elsewhere(m, U.TextOf(at[0]))
    ensures AllAway(MemberLeaves(m, path), path, at)
    decreases m
  {
    hide AllAway, Leaves, U.TextOf;
    NothingAway(path, at);
    match m
    case NoMember(_) =>
    case Member(_, name, _, _, v, _, more) =>
      AwayBeside(v, path, name, at);
      if more.NextMember? { AwayElsewhere(more.members, path, at); }
      AwayAppend(Leaves(v, path + [Name(name)]),
                 match more case EndMembers => [] case NextMember(r) => MemberLeaves(r, path), path, at);
  }

  /** The leaves of a nested object are a contiguous part of the document's, and all the
      others lie outside it. */
  lemma {:induction false} NestedLeaves(m: Members, at: seq<string>, c: Members, path: seq<PathElement>)
    returns (before: seq<Event>, behind: seq<Event>)
    requires Nested(m, at, c)
    ensures MemberLeaves(m, path) == before + (MemberLeaves(c, path + Names(at)) + behind)
    ensures at == [] ==> before == [] && behind == []
    ensures AllAway(before, path, at) && AllAway(behind, path, at)
    decreases m
  {
    hide Leaves, MemberLeaves, AllAway, U.TextOf, Elsewhere;
    NothingAway(path, at);
    if at == [] {
      before, behind := [], [];
      assert path + Names(at) == path;
    } else {
      var first := Leaves(m.value, path + [Name(m.name)]);
      var rest := match m.more case EndMembers => [] case NextMember(r) => MemberLeaves(r, path);
      MemberLeavesAre(m, path);
      if U.TextOf(m.name) == U.TextOf(at[0]) {
        before, behind := NestedLeaves(m.value.members, at[1..], c, path + [Name(m.name)]);
        assert path + [Name(m.name)] + Names(at[1..]) == path + Names(at);
        Regroup(first, before, MemberLeaves(c, path + Names(at)), behind, rest);
        AwayInside(before, path, m.name, at);
        AwayInside(behind, path, m.name, at);
        if m.more.NextMember? { AwayElsewhere(m.more.members, path, at); }
        AwayAppend(behind, rest, path, at);
        behind := behind + rest;
      } else {
        before, behind := NestedLeaves(m.more.members, at, c, path);
        Regroup(first, before, MemberLeaves(c, path + Names(at)), behind, rest);
        AwayBeside(m.value, path, m.name, at);
        AwayAppend(first, before, path, at);
        before := first + before;
      }
    }
  }

  lemma Regroup(a: seq<Event>, b: seq<Event>, c: seq<Event>, d: seq<Event>, e: seq<Event>)
    ensures b + (c + d) + e == b + (c + (d + e)) && a + (b + (c + d)) == (a + b) + (c + d)
  {
  }

  lemma MemberLeavesAre(m: Members, path: seq<PathElement>)
    requires m.Member?
    ensures MemberLeaves(m, path) == Leaves(m.value, path + [Name(m.name)])
      + (match m.more case EndMembers => [] case NextMember(r) => MemberLeaves(r, path))
    ensures m.value.Object? ==>
      Leaves(m.value, path + [Name(m.name)]) == MemberLeaves(m.value.members, path + [Name(m.name)])
  {
  }

  /** Paths that fit the callback's buffer, outside the object under names without slashes. */
  ghost predicate AllUsual(events: seq<Event>, at: seq<string>) {
    forall k :: 0 <= k < |events| ==>
      Printable(events[k].path) && (Under(events[k].path, at) || PlainPath(events[k].path))
  }

  lemma UsualOutside(events: seq<Event>, at: seq<string>)
    requires AllUsual(events, at) && AllAway(events, [], at)
    ensures AllOutside(events, at)
  {
    forall k | 0 <= k < |events| ensures Outside(events[k], at) {
      assert events[k].path[0..] == events[k].path;
    }
  }

  lemma UsualSplit(a: seq<Event>, b: seq<Event>, at: seq<string>)
    requires AllUsual(a + b, at)
    ensures AllUsual(a, at) && AllUsual(b, at) && AllPrintable(a) && AllPrintable(b)
  {
    hide Printable, Under, PlainPath;
    assert forall k :: 0 <= k < |a| ==> (a + b)[k] == a[k];
    assert forall k :: 0 <= k < |b| ==> (a + b)[|a| + k] == b[k];
  }

  /** End to end from the tree: a configuration object nested in the document under any
      path of plain names is loaded as what it declares. */
  lemma LoadsNested(t: string, d: Document, jsonObject: Option<string>, at: seq<string>, c: Members)
    requires ValidDocument(d) && t == PrintDocument(d) && IsCString(t) && DocumentSlots(d) <= PATH_MAX
    requires d.root.Object? && Nested(d.root.members, at, c) && PlainBase(at) && AllUsual(Leaves(d.root, []), at)
    requires jsonObject == Some(BaseText(at)) || (jsonObject == None && at == [])
    requires ReadEntries(c).Some?
    ensures Load(Some(t), jsonObject) == LoadedFrom(ReadEntries(c).value)
  {
    hide ValidDocument, DocumentSlots, Load, LoadedFrom, ReadEntries, BaseText, PlainBase, AllUsual, AllOutside,
      AllAway, AllPrintable, Nested, MemberLeaves;
    var before, behind := NestedLeaves(d.root.members, at, c, []);
    var mid := MemberLeaves(c, Names(at));
    assert [] + Names(at) == Names(at);
    UsualSplit(before, mid + behind, at);
    UsualSplit(mid, behind, at);
    UsualOutside(before, at);
    UsualOutside(behind, at);
    if behind != [] { FirstOutside(behind, at); }
    LoadsDeclared(t, d, jsonObject, at, c, before, behind);
  }

  lemma FirstOutside(events: seq<Event>, at: seq<string>)
    requires events != [] && AllOutside(events, at)
    ensures AllOutside([events[0]], at)
  {
    hide Outside;
  }

  ghost predicate SoundApp(a: App) {
    && IsCString(a.name) && 0 <= a.stdoutSize && 0 <= a.stdoutCount && 0 <= a.stderrSize && 0 <= a.stderrCount
    && (forall k :: 0 <= k < |a.args| ==> IsCString(a.args[k]))
  }

  /** Sound applications, no two neighbours of the same name, the first with a name. */
  ghost predicate SoundApps(apps: seq<App>) {
    apps == [] || (SoundApps(Pop(apps)) && SoundApp(Last(apps)) && Last(apps).name != LastAppName(Pop(apps)))
  }

  function LastAppName(apps: seq<App>): string {
    if apps == [] then "" else Last(apps).name
  }

  ghost predicate SoundMessage(m: Message) {
    SoundApps(m.config.apps) && m.currentApp == LastAppName(m.config.apps)
  }

  lemma AssignKeeps(at: nat, m: Message, k: Key, e: Event)
    requires SoundMessage(m) && m.config.apps != []
    ensures SoundMessage(Assign(at, m, k, e).0)
  {
    hide Field, SetText, SetFlag, SetNumber, SoundApp;
    var a := Last(m.config.apps);
    if e.value.Bool? && k.IsFlag? {
      FlagKeeps(a, k.f, e.value.b);
      PutKeeps(m, SetFlag(a, k.f, e.value.b));
    } else if e.value.Integer? && k.IsNumber? && 0 <= e.value.n {
      NumberKeeps(a, k.n, e.value.n);
      PutKeeps(m, SetNumber(a, k.n, e.value.n));
    } else if e.value.Str? && Field(e.value.raw).Fits? {
      var v := Field(e.value.raw).text;
      FieldIsCString(e.value.raw);
      if k.IsText? { TextKeeps(a, k.t, v); } else { ArgKeeps(a, v); }
      PutKeeps(m, if k.IsText? then SetText(a, k.t, v) else a.(args := a.args + [v]));
    }
  }

  lemma TextKeeps(a: App, t: TextKey, v: string)
    requires SoundApp(a)
    ensures SoundApp(SetText(a, t, v)) && SetText(a, t, v).name == a.name
  {
    hide IsCString;
  }

  lemma FlagKeeps(a: App, f: FlagKey, b: bool)
    requires SoundApp(a)
    ensures SoundApp(SetFlag(a, f, b)) && SetFlag(a, f, b).name == a.name
  {
    hide IsCString;
  }

  lemma NumberKeeps(a: App, n: NumberKey, i: nat)
    requires SoundApp(a)
    ensures SoundApp(SetNumber(a, n, i)) && SetNumber(a, n, i).name == a.name
  {
    hide IsCString;
  }

  lemma ArgKeeps(a: App, v: string)
    requires SoundApp(a) && IsCString(v)
    ensures SoundApp(a.(args := a.args + [v]))
  {
    hide IsCString;
  }

  lemma PutKeeps(m: Message, a: App)
    requires SoundMessage(m) && m.config.apps != [] && SoundApp(a) && a.name == Last(m.config.apps).name
    ensures SoundMessage(PutApp(m, a))
  {
    hide SoundApp;
    assert Pop(PutApp(m, a).config.apps) == Pop(m.config.apps);
  }

  lemma FieldIsCString(raw: string)
    ensures Field(raw).Fits? ==> IsCString(Field(raw).text)
  {
  }

  lemma DeclareKeeps(at: nat, m: Message, e: Event)
    requires SoundMessage(m)
    ensures SoundMessage(Declare(at, m, e).0)
  {
    hide Field, Assign, KeyOf, SoundApp, IsCString, SoundApps;
    if |e.path| > at && e.path[at].Name? && Field(e.path[at].raw).Fits? {
      var name := Field(e.path[at].raw).text;
      FieldIsCString(e.path[at].raw);
      EnterKeeps(m, name);
      var m' := Enter(m, name);
      if IsAppName(name) && |e.path| > at + 1 && e.path[at + 1].Name? && Field(e.path[at + 1].raw).Fits? {
        var k := KeyOf(Field(e.path[at + 1].raw).text);
        if k.Some? && m'.config.apps != [] { AssignKeeps(at + 2, m', k.value, e); }
      }
    }
  }

  lemma EnterKeeps(m: Message, name: string)
    requires SoundMessage(m) && IsCString(name)
    ensures SoundMessage(Enter(m, name))
  {
    var r := Enter(m, name);
    if m.currentApp != name {
      assert Pop(r.config.apps) == m.config.apps && Last(r.config.apps) == DefaultApp(name);
      assert SoundApp(DefaultApp(name));
    }
  }

  lemma {:induction false} FeedKeeps(base: string, events: seq<Event>, m: Message)
    requires SoundMessage(m)
    ensures SoundMessage(Feed(base, events, m).0)
    decreases |events|
  {
    hide Declare, BuildPath, Cut, Inside, SoundApps;
    if events != [] {
      DeclareKeeps(Components(base), if m.state.Searching? then m.(state := Found, code := OK) else m, events[0]);
      FeedKeeps(base, events[1..], OnEvent(base, m, events[0]).0);
    }
  }

  /** Whatever bytes the file holds, a configuration that is loaded has only complete
      applications, with names that are C strings and differ from their neighbours',
      and without negative sizes or counts. */
  lemma LoadedIsSound(content: Option<string>, jsonObject: Option<string>)
    ensures Load(content, jsonObject).Loaded? ==>
      SoundApps(Load(content, jsonObject).config.apps) && Complete(Load(content, jsonObject).config.apps)
  {
    hide P.Deliver, Feed, SoundApps, Complete, Handler, Run;
    assert SoundApps([]) && Complete([]) by { NoApps(); }
    if content.Some? {
      var run := Run(Cut(content.value), PATH_MAX, START);
      FeedIsDeliver(Base(jsonObject), run.events, StartMessage(jsonObject));
      FeedKeeps(Base(jsonObject), run.events, StartMessage(jsonObject));
    }
  }

  lemma NoApps()
    ensures SoundApps([]) && Complete([])
  {
  }
}
