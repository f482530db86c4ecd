/** When the callback's string test on paths is a test on their components. */
module ConfigPaths {
  import opened CText
  import opened JsonMachine
  import opened PathString
  import opened Config
  import U = Unescape

  function Names(at: seq<string>): (p: seq<PathElement>)
    ensures |p| == |at| && forall k :: 0 <= k < |at| ==> p[k] == Name(at[k])
  {
    if at == [] then [] else Names(Pop(at)) + [Name(Last(at))]
  }

  /** Names that decode, to bytes without a slash. */
  ghost predicate PlainPath(path: seq<PathElement>) {
    path == [] || (PlainElement(path[0]) && PlainPath(path[1..]))
  }

  ghost predicate PlainElement(e: PathElement) {
    e.Name? ==> U.TextOf(e.raw).Some? && Without(U.TextOf(e.raw).value, '/')
  }

  /** Names that could be components of the object's path: no slash and no bracket. */
  ghost predicate PlainBase(at: seq<string>) {
    at == [] || (U.TextOf(at[0]).Some? && Without(U.TextOf(at[0]).value, '/') && Without(U.TextOf(at[0]).value, '[')
                 && PlainBase(at[1..]))
  }

  /** The object's path as the user writes it. */
  function BaseText(at: seq<string>): string
    requires PlainBase(at)
  {
    if at == [] then "" else "/" + U.TextOf(at[0]).value + BaseText(at[1..])
  }

  /** The path leads through the named objects, and on into a member of the last one. */
  ghost predicate Under(path: seq<PathElement>, at: seq<string>) {
    path != [] && path[0].Name? && (at == [] || (U.TextOf(path[0].raw) == U.TextOf(at[0]) && Under(path[1..], at[1..])))
  }

  ghost predicate InsideText(base: string, t: string) {
    |t| > |base| && t[..|base|] == base && t[|base|] == '/'
  }

  lemma TextStarts(path: seq<PathElement>)
    requires path != [] && PathText(path).Some?
    ensures PathText(path).value != ""
    ensures PathText(path).value[0] == if path[0].Name? then '/' else '['
  {
  }

  lemma StripPrefix(p: string, base: string, t: string)
    ensures InsideText(p + base, p + t) <==> InsideText(base, t)
  {
    if |t| > |base| {
      assert (p + t)[..|p + base|] == p + t[..|base|];
      assert (p + t)[|p + base|] == t[|base|];
      if p + t[..|base|] == p + base {
        assert (p + base)[|p|..] == base && (p + t[..|base|])[|p|..] == t[..|base|];
      }
    }
  }

  /** Two different first names cannot be confused: the text of a path goes on with a
      slash or a bracket, and the wanted name holds neither. */
  lemma NamesDiffer(b: string, brest: string, n: string, trest: string)
    requires Without(b, '/') && Without(b, '[') && Without(n, '/') && b != n
    requires brest == "" || brest[0] == '/'
    requires trest == "" || trest[0] == '/' || trest[0] == '['
    ensures !InsideText(b + brest, n + trest)
  {
    var base, t := b + brest, n + trest;
    if |n| < |b| {
      assert base[|n|] == b[|n|];
      if trest != "" { assert t[|n|] == trest[0]; }
      Mismatch(base, t, |n|);
    } else if |b| < |n| {
      assert t[|b|] == n[|b|];
      if brest != "" {
        assert base[|b|] == brest[0];
        Mismatch(base, t, |b|);
      }
    } else {
      var k :| 0 <= k < |b| && b[k] != n[k];
      assert base[k] == b[k] && t[k] == n[k];
      Mismatch(base, t, k);
    }
  }

  lemma Mismatch(base: string, t: string, k: nat)
    requires k < |base| && (|t| <= k || t[k] != base[k])
    ensures !InsideText(base, t)
  {
    if |t| > |base| { assert t[..|base|][k] == t[k]; }
  }

  lemma BaseStarts(at: seq<string>)
    requires PlainBase(at)
    ensures at == [] <==> BaseText(at) == ""
    ensures at != [] ==> BaseText(at)[0] == '/'
  {
  }

  /** The string prefix test agrees with the component-wise one. */
  lemma {:induction false} PrefixIsPath(at: seq<string>, path: seq<PathElement>)
    requires PlainBase(at) && PlainPath(path) && PathText(path).Some?
    ensures InsideText(BaseText(at), PathText(path).value) <==> Under(path, at)
    decreases |at|
  {
    hide U.TextOf;
    if path != [] {
      TextStarts(path);
      if at != [] && path[0].Name? {
        var b, n := U.TextOf(at[0]).value, U.TextOf(path[0].raw).value;
        var brest, trest := BaseText(at[1..]), PathText(path[1..]).value;
        assert BaseText(at) == "/" + (b + brest);
        assert PathText(path).value == "/" + (n + trest);
        StripPrefix("/", b + brest, n + trest);
        BaseStarts(at[1..]);
        if path[1..] != [] { TextStarts(path[1..]); }
        if b == n {
          StripPrefix(b, brest, trest);
          PrefixIsPath(at[1..], path[1..]);
        } else {
          NamesDiffer(b, brest, n, trest);
        }
      } else if at != [] {
        BaseStarts(at);
        Mismatch(BaseText(at), PathText(path).value, 0);
      }
    }
  }

  lemma {:induction false} PathTextAppend(a: seq<PathElement>, b: seq<PathElement>)
    ensures PathText(a + b).Some? <==> PathText(a).Some? && PathText(b).Some?
    ensures PathText(a + b).Some? ==> PathText(a + b).value == PathText(a).value + PathText(b).value
    decreases |a|
  {
    hide ElementText;
    if a == [] {
      assert a + b == b;
    } else {
      assert (a + b)[1..] == a[1..] + b;
      PathTextAppend(a[1..], b);
      if PathText(a + b).Some? {
        assert ElementText(a[0]).value + (PathText(a[1..]).value + PathText(b).value)
            == ElementText(a[0]).value + PathText(a[1..]).value + PathText(b).value;
      }
    }
  }

  lemma {:induction false} BaseIsPathText(at: seq<string>, path: seq<PathElement>)
    requires PlainBase(at) && |path| == |at| && forall k :: 0 <= k < |at| ==> path[k] == Name(at[k])
    ensures PathText(path) == Some(BaseText(at))
    decreases |at|
  {
    hide U.TextOf;
    if at != [] { BaseIsPathText(at[1..], path[1..]); }
  }

  lemma {:induction false} SlashesAppend(a: string, b: string)
    ensures Slashes(a + b) == Slashes(a) + Slashes(b)
    decreases |b|
  {
    if b == "" {
      assert a + b == a;
    } else {
      assert Pop(a + b) == a + Pop(b);
      SlashesAppend(a, Pop(b));
    }
  }

  lemma {:induction false} NoSlashes(s: string)
    requires Without(s, '/')
    ensures Slashes(s) == 0
    decreases |s|
  {
    if s != "" { NoSlashes(Pop(s)); }
  }

  /** Counting slashes counts the components. */
  lemma {:induction false} SlashesOfBase(at: seq<string>)
    requires PlainBase(at)
    ensures Slashes(BaseText(at)) == |at|
    decreases |at|
  {
    hide U.TextOf;
    if at != [] {
      var b := U.TextOf(at[0]).value;
      NoSlashes(b);
      SlashesAppend("/", b);
      assert Slashes("/") == 1 by { assert Pop("/") == ""; }
      SlashesAppend("/" + b, BaseText(at[1..]));
      SlashesOfBase(at[1..]);
    }
  }
}
