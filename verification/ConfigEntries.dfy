/** The callback fed with the leaves of a whole configuration object. */
module ConfigEntries {
  import opened CText
  import opened JsonMachine
  import opened JsonDocument
  import opened Config
  import opened ConfigPaths
  import opened ConfigReading
  import opened ConfigLoading

  /** The message after the leaves of some entries. */
  ghost function Reached(start: Message, entries: seq<Entry>): Message {
    if !AnyShown(entries) then start
    else Opened(start).(currentApp := NameOfLast(Blocks(entries)), config := Declared(entries))
  }

  function NameOfLast(blocks: seq<Block>): string {
    if blocks == [] then "" else Last(blocks).name
  }

  ghost predicate IsStart(m: Message) {
    m == StartMessage(None) || m == StartMessage(Some(""))
  }

  lemma StartIsReached(start: Message)
    requires IsStart(start)
    ensures Reached(start, []) == start
  {
  }

  /** A message reached is the start or holds what was declared, and is open for more. */
  lemma ReachedIs(start: Message, entries: seq<Entry>)
    requires IsStart(start)
    ensures Reached(start, entries).config == Declared(entries)
    ensures Reached(start, entries).currentApp == NameOfLast(Blocks(entries))
    ensures Open(Reached(start, entries)) && Reached(start, entries).code != UNDEFINED
  {
    if !AnyShown(entries) { NothingShown(entries); }
  }

  lemma {:induction false} NothingShown(entries: seq<Entry>)
    requires !AnyShown(entries)
    ensures Blocks(entries) == [] && LastFormat(entries) == None && LastDirs(entries) == None
    ensures Declared(entries) == DEFAULT
    decreases |entries|
  {
    if entries != [] {
      assert forall k :: 0 <= k < |Pop(entries)| ==> Pop(entries)[k] == entries[k];
      NothingShown(Pop(entries));
      assert !Shown(entries[|entries| - 1]);
    }
  }

  lemma OneMore(done: seq<Entry>, e: Entry)
    ensures Pop(done + [e]) == done && Last(done + [e]) == e
    ensures AnyShown(done + [e]) <==> AnyShown(done) || Shown(e)
    ensures Blocks(done + [e]) == AddEntry(Blocks(done), e)
  {
    var all := done + [e];
    assert Pop(all) == done;
    if AnyShown(done) {
      var k :| 0 <= k < |done| && Shown(done[k]);
      assert Shown(all[k]);
    }
    if Shown(e) { assert Shown(all[|done|]); }
  }

  /** The message with a setting of the object's own. */
  lemma ReachedSetting(start: Message, done: seq<Entry>, e: Entry)
    requires IsStart(start) && !e.Application?
    ensures var m := Opened(Reached(start, done));
      Reached(start, done + [e]) == match e
        case LogFormat(v) => m.(config := m.config.(logFormat := Some(v)))
        case LogDirs(b) => m.(config := m.config.(createLogDirs := b))
        case _ => m
  {
    hide Blocks, AppsOf;
    OneMore(done, e);
    ReachedIs(start, done);
  }

  lemma ReachedHidden(start: Message, done: seq<Entry>, e: Entry)
    requires IsStart(start) && !Shown(e)
    ensures Reached(start, done + [e]) == Reached(start, done) && Blocks(done + [e]) == Blocks(done)
  {
    hide Blocks, AppsOf;
    OneMore(done, e);
  }

  lemma {:induction false} ApplyMore(a: App, s: seq<Setting>, t: seq<Setting>)
    ensures ApplyAll(a, s + t) == ApplyAll(ApplyAll(a, s), t)
    decreases |s|
  {
    hide Apply;
    if s == [] {
      assert s + t == t;
    } else {
      assert (s + t)[1..] == s[1..] + t;
      ApplyMore(Apply(a, s[0]), s[1..], t);
    }
  }

  /** More settings for a declared application. */
  lemma MergedApp(name: string, s: seq<Setting>, t: seq<Setting>)
    ensures ApplyAll(AppOf(name, s), t) == AppOf(name, s + t)
  {
    hide ApplyAll, AppOf;
    AppliedIsDeclared(name, s);
    AppliedIsDeclared(name, s + t);
    ApplyMore(DefaultApp(name), s, t);
  }

  lemma AppsOfMore(blocks: seq<Block>, b: Block)
    ensures AppsOf(blocks + [b]) == AppsOf(blocks) + [AppOf(b.name, b.settings)]
  {
    hide AppOf;
    assert Pop(blocks + [b]) == blocks;
  }

  /** Declared applications with one more block, or with more settings for the last. */
  lemma AppsOfAdded(blocks: seq<Block>, name: string, s: seq<Setting>)
    requires Visible(s)
    ensures var after := AddEntry(blocks, Application(name, s));
      if blocks != [] && Last(blocks).name == name then
        AppsOf(blocks) != []
        && AppsOf(after) == Pop(AppsOf(blocks)) + [ApplyAll(Last(AppsOf(blocks)), s)]
      else
        AppsOf(after) == AppsOf(blocks) + [ApplyAll(DefaultApp(name), s)]
    ensures NameOfLast(AddEntry(blocks, Application(name, s))) == name
  {
    hide AppsOf, ApplyAll, AppOf, Visible;
    if blocks != [] && Last(blocks).name == name {
      var b := Last(blocks);
      assert blocks == Pop(blocks) + [b];
      AppsOfMore(Pop(blocks), b);
      AppsOfMore(Pop(blocks), Block(name, b.settings + s));
      MergedApp(name, b.settings, s);
    } else {
      AppsOfMore(blocks, Block(name, s));
      AppliedIsDeclared(name, s);
    }
  }

  /** Entering an application and applying its settings is one more declared entry, if
      there is room for it. */
  lemma ReachedApp(start: Message, done: seq<Entry>, name: string, s: seq<Setting>)
    requires IsStart(start) && Visible(s)
    ensures var all := done + [Application(name, s)]; var m := Enter(Opened(Reached(start, done)), name);
      && (m.config.apps == [] <==> Nameless(all) && !Nameless(done))
      && (m.config.apps != [] ==> Reached(start, all) == PutApp(m, ApplyAll(Last(m.config.apps), s)))
  {
    hide Blocks, AppsOf, ApplyAll, AppOf, LastFormat, LastDirs, Visible;
    var e := Application(name, s);
    OneMore(done, e);
    ReachedIs(start, done);
    LastsUnchanged(done, e);
    AppsOfAdded(Blocks(done), name, s);
    var m := Enter(Opened(Reached(start, done)), name);
    var apps := AppsOf(Blocks(done));
    if NameOfLast(Blocks(done)) != name {
      assert m.config.apps == apps + [DefaultApp(name)] && Pop(m.config.apps) == apps;
    }
  }

  lemma LastsUnchanged(done: seq<Entry>, e: Entry)
    requires e.Application?
    ensures LastFormat(done + [e]) == LastFormat(done) && LastDirs(done + [e]) == LastDirs(done)
  {
    assert Pop(done + [e]) == done;
  }

  /** What the callback makes of the leaves of the next entries: it goes on to the next
      message, or is stopped by an application it has no room for. */
  ghost predicate Runs(base: string, events: seq<Event>, start: Message, done: seq<Entry>, all: seq<Entry>) {
    var r := Feed(base, events, Reached(start, done));
    if Nameless(all) then r.1 && r.0.code == UNDEFINED else r == (Reached(start, all), false)
  }

  lemma SettingEntryRun(base: string, at: seq<string>, raw: string, v: Json, start: Message, done: seq<Entry>)
    requires IsStart(start) && Placed(base, at) && !Nameless(done)
    requires ReadEntry(raw, v).Some? && !ReadEntry(raw, v).value.Application?
    requires AllPrintable(Leaves(v, Names(at) + [Name(raw)]))
    ensures Runs(base, Leaves(v, Names(at) + [Name(raw)]), start, done, done + [ReadEntry(raw, v).value])
  {
    hide OnEvent, Feed, Plain, Placed, Printable, Field, ReadSettings, Reached, Blocks, Declared;
    var e, m := ReadEntry(raw, v).value, Reached(start, done);
    var leaf := Event(Names(at) + [Name(raw)], LiteralValue(v.l));
    assert Printable([leaf][0].path);
    ReachedIs(start, done);
    ReachedSetting(start, done, e);
    OneMore(done, e);
    LeafInside(base, at, m, leaf);
    FieldPlain(raw, Plain(raw).value);
    FeedOne(base, leaf, m);
    if e.LogFormat? { FieldPlain(v.l.raw, Plain(v.l.raw).value); }
  }

  /** Leaves of readable settings stand below a known key. */
  lemma {:induction false} FirstKey(s: Members, path: seq<PathElement>) returns (key: string)
    requires ReadSettings(s).Some? && MemberLeaves(s, path) != []
    ensures var p := MemberLeaves(s, path)[0].path; |p| > |path| && p[..|path|] == path && p[|path|] == Name(key)
    ensures Plain(key).Some? && KeyOf(Plain(key).value).Some?
    decreases s
  {
    hide Plain, KeyOf, Leaves, ReadLiteral, ReadArgs;
    key := s.name;
    var events := Leaves(s.value, path + [Name(key)]);
    if events != [] {
      LeavesBelow(s.value, path + [Name(key)]);
      assert events[0].path[..|path| + 1] == path + [Name(key)];
      assert events[0].path[..|path|] == events[0].path[..|path| + 1][..|path|] == path;
      assert events[0].path[|path|] == events[0].path[..|path| + 1][|path|];
      assert ReadSetting(key, s.value).Some?;
    } else {
      key := FirstKey(s.more.members, path);
    }
  }

  /** An application that there is no room for: its first leaf is refused. */
  lemma NamelessRun(base: string, at: seq<string>, raw: string, name: string, s: Members, m: Message)
    requires Placed(base, at) && Open(m) && Plain(raw) == Some(name) && IsAppName(name)
    requires ReadSettings(s).Some? && MemberLeaves(s, Names(at) + [Name(raw)]) != []
    requires AllPrintable(MemberLeaves(s, Names(at) + [Name(raw)])) && Enter(Opened(m), name).config.apps == []
    ensures var r := Feed(base, MemberLeaves(s, Names(at) + [Name(raw)]), m); r.1 && r.0.code == UNDEFINED
  {
    hide OnEvent, Plain, Placed, Printable, Field, KeyOf, MemberLeaves, ReadSettings, Assign;
    var path := Names(at) + [Name(raw)];
    var e := MemberLeaves(s, path)[0];
    var key := FirstKey(s, path);
    assert e.path[..|at|] == e.path[..|path|][..|at|] == Names(at);
    assert e.path[|at|] == e.path[..|path|][|at|] == Name(raw);
    PropertyLeaf(base, at, raw, name, m, e);
    FieldPlain(key, Plain(key).value);
  }

  lemma {:induction false} HiddenLeaves(s: Members, path: seq<PathElement>)
    requires ReadSettings(s).Some? && !Visible(ReadSettings(s).value)
    ensures MemberLeaves(s, path) == []
    decreases s
  {
    hide Plain, KeyOf;
    if s.Member? {
      var all := ReadSettings(s).value;
      assert all[0] == ReadSetting(s.name, s.value).value;
      NoArgs(s.name, s.value, path + [Name(s.name)]);
      if s.more.NextMember? {
        assert all[1..] == ReadSettings(s.more.members).value;
        HiddenLeaves(s.more.members, path);
      }
    }
  }

  lemma NoArgs(key: string, v: Json, path: seq<PathElement>)
    requires ReadSetting(key, v) == Some(Args([]))
    ensures Leaves(v, path) == []
  {
    hide Plain, KeyOf;
    if v.Array? { assert v.items.NoItem?; }
  }

  lemma AppEntryRun(base: string, at: seq<string>, raw: string, s: Members, start: Message, done: seq<Entry>)
    requires IsStart(start) && Placed(base, at) && !Nameless(done)
    requires Plain(raw).Some? && IsAppName(Plain(raw).value) && ReadSettings(s).Some?
    requires AllPrintable(MemberLeaves(s, Names(at) + [Name(raw)]))
    ensures Runs(base, MemberLeaves(s, Names(at) + [Name(raw)]), start, done,
                 done + [Application(Plain(raw).value, ReadSettings(s).value)])
  {
    hide OnEvent, Feed, Plain, Placed, Printable, ReadSettings, Visible, MemberLeaves, ApplyAll, Reached, Blocks,
      Declared;
    var name, settings, m := Plain(raw).value, ReadSettings(s).value, Reached(start, done);
    var path := Names(at) + [Name(raw)];
    var events := MemberLeaves(s, path);
    ReachedIs(start, done);
    if !Visible(settings) {
      HiddenLeaves(s, path);
      ReachedHidden(start, done, Application(name, settings));
      FeedNothing(base, m);
    } else {
      VisibleLeaves(s, path);
      ReachedApp(start, done, name, settings);
      var m' := Enter(Opened(m), name);
      if m'.config.apps == [] {
        NamelessRun(base, at, raw, name, s, m);
      } else {
        EnteredRun(base, at, raw, name, s, m);
        NamelessSame(start, done, name, settings);
      }
    }
  }

  lemma NamelessSame(start: Message, done: seq<Entry>, name: string, s: seq<Setting>)
    requires IsStart(start) && Visible(s) && !Nameless(done)
    requires Enter(Opened(Reached(start, done)), name).config.apps != []
    ensures !Nameless(done + [Application(name, s)])
  {
    hide Reached, Blocks;
    ReachedApp(start, done, name, s);
  }

  lemma EnteredRun(base: string, at: seq<string>, raw: string, name: string, s: Members, m: Message)
    requires Placed(base, at) && Open(m) && Plain(raw) == Some(name) && IsAppName(name)
    requires ReadSettings(s).Some? && MemberLeaves(s, Names(at) + [Name(raw)]) != []
    requires AllPrintable(MemberLeaves(s, Names(at) + [Name(raw)])) && Enter(Opened(m), name).config.apps != []
    ensures var m' := Enter(Opened(m), name);
      Feed(base, MemberLeaves(s, Names(at) + [Name(raw)]), m)
      == (PutApp(m', ApplyAll(Last(m'.config.apps), ReadSettings(s).value)), false)
  {
    hide OnEvent, Feed, Plain, Placed, Printable, ReadSettings, MemberLeaves, ApplyAll;
    var path := Names(at) + [Name(raw)];
    var events := MemberLeaves(s, path);
    MembersBelow(s, path);
    assert events[0].path[..|path|] == path;
    assert events[0].path[..|at|] == path[..|at|] == Names(at);
    assert events[0].path[|at|] == path[|at|];
    FirstLeaf(base, at, raw, name, events, m);
    SettingsRun(base, at, raw, name, s, Enter(Opened(m), name));
  }

  /** The first application stays the first. */
  lemma {:induction false} NamelessStays(done: seq<Entry>, more: seq<Entry>)
    ensures Nameless(done) ==> Nameless(done + more)
    decreases |more|
  {
    hide Visible;
    if more == [] {
      assert done + more == done;
    } else {
      NamelessStays(done, Pop(more));
      assert Pop(done + more) == done + Pop(more);
    }
  }

  lemma RunsOn(base: string, a: seq<Event>, b: seq<Event>, start: Message, done: seq<Entry>, mid: seq<Entry>,
               all: seq<Entry>)
    requires Runs(base, a, start, done, mid) && (Nameless(mid) ==> Nameless(all))
    requires !Nameless(mid) ==> Runs(base, b, start, mid, all)
    ensures Runs(base, a + b, start, done, all)
  {
    hide Feed, Reached, Blocks;
    FeedAppend(base, a, b, Reached(start, done));
  }

  /** The leaves of a configuration object add exactly what its entries declare. */
  lemma {:induction false} EntriesRun(base: string, at: seq<string>, c: Members, start: Message, done: seq<Entry>)
    requires IsStart(start) && Placed(base, at) && !Nameless(done) && ReadEntries(c).Some?
    requires AllPrintable(MemberLeaves(c, Names(at)))
    ensures Runs(base, MemberLeaves(c, Names(at)), start, done, done + ReadEntries(c).value)
    decreases c
  {
    hide OnEvent, Feed, Plain, Placed, AllPrintable, Reached, ReadEntry, Leaves, Nameless, Runs, ReadSettings;
    match c
    case NoMember(_) =>
      assert done + [] == done;
      RunsNowhere(base, start, done);
    case Member(_, raw, _, _, v, _, more) =>
      var e := ReadEntry(raw, v).value;
      var events := Leaves(v, Names(at) + [Name(raw)]);
      var rest := match more case EndMembers => [] case NextMember(r) => MemberLeaves(r, Names(at));
      AllSplit(events, rest);
      EntryRun(base, at, raw, v, start, done);
      var mid := done + [e];
      if more.NextMember? {
        var others := ReadEntries(more.members).value;
        assert mid + others == done + ([e] + others);
        NamelessStays(mid, others);
        if !Nameless(mid) { EntriesRun(base, at, more.members, start, mid); }
        RunsOn(base, events, rest, start, done, mid, mid + others);
      } else {
        if !Nameless(mid) { RunsNowhere(base, start, mid); }
        RunsOn(base, events, rest, start, done, mid, mid);
      }
  }

  lemma EntryRun(base: string, at: seq<string>, raw: string, v: Json, start: Message, done: seq<Entry>)
    requires IsStart(start) && Placed(base, at) && !Nameless(done) && ReadEntry(raw, v).Some?
    requires AllPrintable(Leaves(v, Names(at) + [Name(raw)]))
    ensures Runs(base, Leaves(v, Names(at) + [Name(raw)]), start, done, done + [ReadEntry(raw, v).value])
  {
    hide Plain, Placed, AllPrintable, Runs, ReadSettings, Nameless, MemberLeaves;
    if ReadEntry(raw, v).value.Application? {
      AppEntryRun(base, at, raw, v.members, start, done);
    } else {
      SettingEntryRun(base, at, raw, v, start, done);
    }
  }

  lemma RunsNowhere(base: string, start: Message, done: seq<Entry>)
    requires !Nameless(done)
    ensures Runs(base, [], start, done, done)
  {
  }

  lemma ShownFirst(e: Entry, rest: seq<Entry>)
    ensures AnyShown([e] + rest) <==> Shown(e) || AnyShown(rest)
    ensures AnyShown([e]) <==> Shown(e)
  {
    hide Shown;
    var all := [e] + rest;
    assert all[0] == e && [e][0] == e && forall k :: 0 <= k < |rest| ==> all[k + 1] == rest[k];
    if k :| 0 <= k < |rest| && Shown(rest[k]) { assert Shown(all[k + 1]); }
    if k :| 0 < k < |all| && Shown(all[k]) { assert Shown(rest[k - 1]); }
  }

  /** Entries show something exactly when the object has a leaf. */
  lemma {:induction false} ShownLeaves(c: Members, path: seq<PathElement>)
    requires ReadEntries(c).Some?
    ensures AnyShown(ReadEntries(c).value) <==> MemberLeaves(c, path) != []
    decreases c
  {
    hide AnyShown, ReadEntry, Shown, Leaves;
    match c
    case NoMember(_) => NoneShown();
    case Member(_, raw, _, _, v, _, more) =>
      var e := ReadEntry(raw, v).value;
      EntryLeaves(raw, v, path + [Name(raw)]);
      if more.NextMember? {
        ShownLeaves(more.members, path);
        ShownFirst(e, ReadEntries(more.members).value);
      } else {
        ShownFirst(e, []);
      }
  }

  lemma NoneShown()
    ensures !AnyShown([])
  {
  }

  lemma EntryLeaves(raw: string, v: Json, path: seq<PathElement>)
    requires ReadEntry(raw, v).Some?
    ensures Shown(ReadEntry(raw, v).value) <==> Leaves(v, path) != []
  {
    hide Plain, ReadSettings, Visible, MemberLeaves;
    var e := ReadEntry(raw, v).value;
    if e.Application? {
      if Shown(e) { VisibleLeaves(v.members, path); } else { HiddenLeaves(v.members, path); }
    }
  }
}
