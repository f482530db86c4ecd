/** log_format_render: a format with {placeholders}, rendered in one pass. */
module LogFormatter {
  import opened CText
  import G = GrowableBuffer

  datatype Segment = Plain(c: char) | Placeholder(name: string) | Unclosed(rest: string)

  /** Where the first closing brace from k on is, or the end of the text. */
  function Closing(f: string, k: nat): (e: nat)
    requires k <= |f|
    ensures k <= e <= |f| && (e < |f| ==> f[e] == '}') && (forall j :: k <= j < e ==> f[j] != '}')
    decreases |f| - k
  {
    if k == |f| || f[k] == '}' then k else Closing(f, k + 1)
  }

  /** Where the first segment of a text ends. */
  function End(f: string): (e: nat)
    requires f != ""
    ensures 0 < e <= |f|
  {
    if f[0] != '{' then 1 else if Closing(f, 1) == |f| then |f| else Closing(f, 1) + 1
  }

  function First(f: string): Segment
    requires f != ""
  {
    if f[0] != '{' then Plain(f[0])
    else if Closing(f, 1) == |f| then Unclosed(f[1..])
    else Placeholder(f[1..Closing(f, 1)])
  }

  function Split(f: string): seq<Segment>
    decreases |f|
  {
    if f == "" then [] else [First(f)] + Split(f[End(f)..])
  }

  /** A plain byte is no opening brace, a name holds no closing brace, and only the last
      segment lacks its closing brace. */
  ghost predicate Valid(segments: seq<Segment>) {
    segments == [] || match segments[0]
      case Plain(c) => c != '{' && Valid(segments[1..])
      case Placeholder(name) => Without(name, '}') && Valid(segments[1..])
      case Unclosed(rest) => Without(rest, '}') && |segments| == 1
  }

  function SourceOf(s: Segment): string {
    match s
    case Plain(c) => [c]
    case Placeholder(name) => "{" + (name + "}")
    case Unclosed(rest) => "{" + rest
  }

  /** A known placeholder stands for its value, anything else for itself. */
  function MeaningOf(s: Segment, lookup: string -> Option<string>): string {
    if s.Placeholder? && lookup(s.name).Some? then lookup(s.name).value else SourceOf(s)
  }

  function Source(segments: seq<Segment>): string {
    if segments == [] then "" else SourceOf(segments[0]) + Source(segments[1..])
  }

  function Meaning(segments: seq<Segment>, lookup: string -> Option<string>): string {
    if segments == [] then "" else MeaningOf(segments[0], lookup) + Meaning(segments[1..], lookup)
  }

  lemma FirstSource(f: string)
    requires f != ""
    ensures SourceOf(First(f)) == f[..End(f)]
    ensures First(f).Unclosed? ==> End(f) == |f|
    ensures Valid([First(f)])
  {
  }

  lemma SplitHead(f: string)
    requires f != ""
    ensures Split(f) != [] && Split(f)[0] == First(f) && Split(f)[1..] == Split(f[End(f)..])
  {
  }

  lemma ValidMore(s: Segment, rest: seq<Segment>)
    requires Valid([s]) && Valid(rest) && (s.Unclosed? ==> rest == [])
    ensures Valid([s] + rest)
  {
    assert ([s] + rest)[1..] == rest;
  }

  /** Every format is the concatenation of its segments. */
  lemma {:induction false} SplitCovers(f: string)
    ensures Valid(Split(f)) && Source(Split(f)) == f
    decreases |f|
  {
    hide First, End, Valid, SourceOf;
    if f == "" {
      NothingValid();
    } else {
      var rest := f[End(f)..];
      SplitHead(f);
      FirstSource(f);
      SplitCovers(rest);
      ValidMore(First(f), Split(rest));
      assert f[..End(f)] + rest == f;
    }
  }

  lemma NothingValid()
    ensures Valid([])
  {
  }

  lemma FirstUnique(s: Segment, rest: seq<Segment>)
    requires Valid([s] + rest)
    ensures var f := SourceOf(s) + Source(rest);
      f != "" && First(f) == s && End(f) == |SourceOf(s)| && Valid(rest)
  {
    hide Source;
    var f := SourceOf(s) + Source(rest);
    assert ([s] + rest)[1..] == rest;
    match s
    case Plain(c) =>
    case Unclosed(r) =>
      assert rest == [];
      assert Source(rest) == "" by { NoSource(); }
      assert f == "{" + r && f[1..] == r;
      assert forall k :: 1 <= k < |f| ==> f[k] == r[k - 1];
    case Placeholder(name) =>
      assert forall k :: 1 <= k < |name| + 1 ==> f[k] == name[k - 1];
      assert f[|name| + 1] == '}';
      assert Closing(f, 1) == |name| + 1;
      assert f[1..|name| + 1] == name;
  }

  lemma NoSource()
    ensures Source([]) == ""
  {
  }

  /** A format has no other segments. */
  lemma {:induction false} SplitUnique(segments: seq<Segment>)
    requires Valid(segments)
    ensures Split(Source(segments)) == segments
    decreases |segments|
  {
    hide First, End, Valid, SourceOf;
    if segments != [] {
      var s, rest := segments[0], segments[1..];
      assert segments == [s] + rest;
      FirstUnique(s, rest);
      SplitUnique(rest);
      SplitHead(Source(segments));
      assert (SourceOf(s) + Source(rest))[|SourceOf(s)|..] == Source(rest);
    }
  }

  /** A placeholder behind plain bytes becomes its value, or stays when it has none; what
      follows it is rendered by itself. */
  lemma {:induction false} RenderedPlaceholder(plain: string, name: string, rest: string,
                                               lookup: string -> Option<string>)
    requires Without(plain, '{') && Without(name, '}')
    ensures Meaning(Split(plain + ("{" + (name + ("}" + rest)))), lookup)
         == plain + ((if lookup(name).Some? then lookup(name).value else "{" + (name + "}"))
                     + Meaning(Split(rest), lookup))
    decreases |plain|
  {
    var hole := "{" + (name + ("}" + rest));
    if plain == "" {
      FirstHole(name, rest);
      assert plain + hole == hole;
      MeaningStep(hole, lookup);
    } else {
      PlainFirst(plain, hole, lookup);
      RenderedPlaceholder(plain[1..], name, rest, lookup);
    }
  }

  lemma FirstHole(name: string, rest: string)
    requires Without(name, '}')
    ensures var f := "{" + (name + ("}" + rest)); First(f) == Placeholder(name) && f[End(f)..] == rest
  {
    var f := "{" + (name + ("}" + rest));
    assert forall k :: 1 <= k < |name| + 1 ==> f[k] == name[k - 1];
    assert f[|name| + 1] == '}';
    assert Closing(f, 1) == |name| + 1;
    assert f[1..|name| + 1] == name && f[|name| + 2..] == rest;
  }

  lemma PlainFirst(plain: string, rest: string, lookup: string -> Option<string>)
    requires plain != "" && plain[0] != '{'
    ensures Meaning(Split(plain + rest), lookup) == [plain[0]] + Meaning(Split(plain[1..] + rest), lookup)
  {
    var f := plain + rest;
    assert f[0] == plain[0] && f[1..] == plain[1..] + rest;
    SplitHead(f);
  }

  /** Text without placeholders, and a placeholder that is never closed, stay as they are. */
  lemma {:induction false} RenderedPlain(plain: string, rest: string, lookup: string -> Option<string>)
    requires Without(plain, '{') && (rest == "" || (rest[0] == '{' && Without(rest, '}')))
    ensures Meaning(Split(plain + rest), lookup) == plain + rest
    decreases |plain|
  {
    hide End, First, Split, Meaning;
    if plain != "" {
      PlainFirst(plain, rest, lookup);
      RenderedPlain(plain[1..], rest, lookup);
      assert [plain[0]] + (plain[1..] + rest) == plain + rest;
    } else {
      assert plain + rest == rest;
      if rest == "" { NothingLeft(lookup); } else { OpenRest(rest, lookup); }
    }
  }

  lemma OpenRest(rest: string, lookup: string -> Option<string>)
    requires rest != "" && rest[0] == '{' && Without(rest, '}')
    ensures Meaning(Split(rest), lookup) == rest
  {
    assert Closing(rest, 1) == |rest|;
    assert "{" + rest[1..] == rest && rest[End(rest)..] == "";
    SplitHead(rest);
    assert rest + "" == rest;
  }

  datatype Values = Values(timestamp: string, timestampIso: string, appName: string, deviceName: string,
        message: string)

  /** log_format_placeholder_value: the environment first, then the values at hand. */
  function PlaceholderValue(name: string, values: Option<Values>, env: string -> Option<string>): Option<string> {
    if |name| > 4 && "env:" <= name then Some(if env(name[4..]).Some? then env(name[4..]).value else "")
    else if values.None? then None
    else if name == "timestamp" then Some(values.value.timestamp)
    else if name == "timestampISO" then Some(values.value.timestampIso)
    else if name == "app-name" then Some(values.value.appName)
    else if name == "device-name" then Some(values.value.deviceName)
    else if name == "message" then Some(values.value.message)
    else None
  }

  /** Which name stands for which value; the environment is asked in any case. */
  lemma Placeholders(name: string, v: Values, env: string -> Option<string>)
    ensures PlaceholderValue("timestamp", Some(v), env) == Some(v.timestamp)
    ensures PlaceholderValue("timestampISO", Some(v), env) == Some(v.timestampIso)
    ensures PlaceholderValue("app-name", Some(v), env) == Some(v.appName)
    ensures PlaceholderValue("device-name", Some(v), env) == Some(v.deviceName)
    ensures PlaceholderValue("message", Some(v), env) == Some(v.message)
    ensures name != "" ==>
      PlaceholderValue("env:" + name, Some(v), env) == PlaceholderValue("env:" + name, None, env)
      == Some(if env(name).None? then "" else env(name).value)
    ensures (forall x :: x != "" ==> name != "env:" + x) ==>
      && PlaceholderValue(name, None, env) == None
      && (PlaceholderValue(name, Some(v), env).Some? <==>
            name in ["timestamp", "timestampISO", "app-name", "device-name", "message"])
  {
    if name != "" { assert ("env:" + name)[4..] == name && "env:" <= "env:" + name; }
    if |name| > 4 && "env:" <= name { assert name == "env:" + name[4..]; }
    NoneFromEnvironment();
  }

  lemma NoneFromEnvironment()
    ensures !("env:" <= "timestamp") && !("env:" <= "timestampISO") && !("env:" <= "app-name")
    ensures !("env:" <= "device-name") && !("env:" <= "message")
  {
    assert "env:"[0] != "timestamp"[0] && "env:"[0] != "app-name"[0] && "env:"[0] != "device-name"[0];
    assert "env:"[0] != "message"[0] && "env:"[0] != "timestampISO"[0];
  }

  /** The format used when none is given. */
  const FALLBACK := "{message}"

  /** Looks for the next closing brace. */
  method FindClosing(f: string, from: nat) returns (e: nat)
    requires from <= |f|
    ensures e == Closing(f, from)
  {
    e := from;
    while e < |f| && f[e] != '}'
      invariant from <= e <= |f| && Closing(f, e) == Closing(f, from)
    {
      e := e + 1;
    }
  }

  /** What one turn of the loop appends, and how far it moves on. */
  method Piece(rest: string, lookup: string -> Option<string>) returns (piece: string, n: nat)
    requires rest != ""
    ensures n == End(rest) && piece == MeaningOf(First(rest), lookup)
  {
    if rest[0] != '{' { return [rest[0]], 1; }
    var e := FindClosing(rest, 1);
    if e == |rest| { return rest, |rest|; }
    FirstSource(rest);
    var value := lookup(rest[1..e]);
    return if value.Some? then value.value else rest[..e + 1], e + 1;
  }

  lemma MeaningStep(rest: string, lookup: string -> Option<string>)
    requires rest != ""
    ensures Meaning(Split(rest), lookup) == MeaningOf(First(rest), lookup) + Meaning(Split(rest[End(rest)..]), lookup)
  {
    hide First, End, MeaningOf;
    SplitHead(rest);
  }

  /** Rendering appends the value of each segment in turn; the bytes moved by all the
      reallocations together are bounded by twice the output. */
  method Render(format: Option<string>, values: Option<Values>, env: string -> Option<string>)
    returns (out: string, ghost moved: nat)
    ensures
      var used := if format.Some? then format.value else FALLBACK;
      out == Meaning(Split(used), name => PlaceholderValue(name, values, env))
    ensures moved <= Max(64, 2 * (|out| + 1))
  {
    hide Split, Meaning, MeaningOf, First, End, PlaceholderValue;
    var f := if format.Some? then format.value else FALLBACK;
    var lookup := name => PlaceholderValue(name, values, env);
    var result := new G.Growable(64);
    var i := 0;
    assert f[0..] == f && "" + Meaning(Split(f), lookup) == Meaning(Split(f), lookup);
    while i < |f|
      invariant 0 <= i <= |f| && fresh(result) && result.initial == 64
      invariant result.Valid() && (result.data == null || fresh(result.data))
      invariant result.Contents() + Meaning(Split(f[i..]), lookup) == Meaning(Split(f), lookup)
      invariant result.recopied <= Max(64, 2 * (|result.Contents()| + 1))
    {
      i := RenderSegment(f, i, lookup, result);
    }
    NothingLeft(lookup);
    out := result.Finish();
    assert f[i..] == "" && out + "" == out;
    moved := result.recopied;
  }

  /** One turn of the loop. */
  method RenderSegment(f: string, i: nat, lookup: string -> Option<string>, result: G.Growable) returns (next: nat)
    requires i < |f| && result.Valid()
    modifies result, result.data
    ensures i < next <= |f| && result.Valid() && (result.data == old(result.data) || fresh(result.data))
    ensures result.Contents() + Meaning(Split(f[next..]), lookup)
            == old(result.Contents()) + Meaning(Split(f[i..]), lookup)
    ensures result.recopied <= Max(result.initial, 2 * (|result.Contents()| + 1))
  {
    hide Split, Meaning, MeaningOf, First, End;
    var piece, n := Piece(f[i..], lookup);
    MeaningStep(f[i..], lookup);
    assert f[i..][n..] == f[i + n..];
    Associate(result.Contents(), piece, Meaning(Split(f[i + n..]), lookup));
    result.Append(piece);
    next := i + n;
  }

  lemma Associate(a: string, b: string, c: string)
    ensures (a + b) + c == a + (b + c)
  {
  }

  lemma NothingLeft(lookup: string -> Option<string>)
    ensures Meaning(Split(""), lookup) == ""
  {
  }
}
