/** What a configuration object declares, read off the document tree. */
module ConfigReading {
  import opened CText
  import opened JsonTokens
  import opened JsonDocument
  import opened Config
  import U = Unescape

  datatype Setting =
    | Text(t: TextKey, v: string)
    | Flag(f: FlagKey, b: bool)
    | Number(n: NumberKey, k: nat)
    | Args(list: seq<string>)

  datatype Entry =
    | LogFormat(format: string)
    | LogDirs(create: bool)
    | Application(name: string, settings: seq<Setting>)

  /** The member name that each key has in a configuration file. */
  function KeyName(k: Key): string {
    match k
    case IsText(PathKey) => "path"
    case IsText(PrefixKey) => "prefix_logs"
    case IsText(StdoutKey) => "stdout"
    case IsText(StderrKey) => "stderr"
    case IsFlag(AutorestartKey) => "autorestart"
    case IsFlag(AutostartKey) => "autostart"
    case IsFlag(StdoutPassKey) => "stdout_passthrough"
    case IsFlag(StderrPassKey) => "stderr_passthrough"
    case IsNumber(StdoutSizeKey) => "stdout_rotate_size"
    case IsNumber(StdoutCountKey) => "stdout_rotate_count"
    case IsNumber(StderrSizeKey) => "stderr_rotate_size"
    case IsNumber(StderrCountKey) => "stderr_rotate_count"
    case IsArgs => "args"
  }

  /** The callback's comparisons recognise exactly those names. */
  lemma KeysAreNamed(name: string, k: Key)
    ensures KeyOf(name) == Some(k) <==> name == KeyName(k)
  {
  }

  /** A name or value that decodes to a C string the callback's buffer holds. */
  function Plain(raw: string): Option<string> {
    match U.TextOf(raw)
    case None => None
    case Some(b) => if |b| < BUFFER_SIZE && Cut(b) == b then Some(b) else None
  }

  function ReadLiteral(k: Key, l: Literal): Option<Setting> {
    if l.LString? then
      match Plain(l.raw)
      case None => None
      case Some(v) => if k.IsText? then Some(Text(k.t, v)) else if k.IsArgs? then Some(Args([v])) else None
    else if k.IsFlag? && (l.LTrue? || l.LFalse?) then Some(Flag(k.f, l.LTrue?))
    else if k.IsNumber? && l.LNumber? && !IsDouble(l.n) && 0 <= NumeralValue(l.n) < 0x8000_0000 then
      Some(Number(k.n, NumeralValue(l.n)))
    else None
  }

  function ReadArgs(items: Items): Option<seq<string>> {
    match items
    case NoItem(_) => Some([])
    case Item(_, value, _, more) =>
      if !value.Lit? || !value.l.LString? || Plain(value.l.raw).None? then None
      else
        match more
        case EndItems => Some([Plain(value.l.raw).value])
        case NextItem(rest) =>
          if ReadArgs(rest).None? then None else Some([Plain(value.l.raw).value] + ReadArgs(rest).value)
  }

  function ReadSetting(name: string, v: Json): Option<Setting> {
    if Plain(name).None? || KeyOf(Plain(name).value).None? then None
    else
      var k := KeyOf(Plain(name).value).value;
      match v
      case Lit(l) => ReadLiteral(k, l)
      case Array(items) => if k.IsArgs? && ReadArgs(items).Some? then Some(Args(ReadArgs(items).value)) else None
      case Object(_) => None
  }

  function ReadSettings(m: Members): Option<seq<Setting>> {
    match m
    case NoMember(_) => Some([])
    case Member(_, name, _, _, value, _, more) =>
      if ReadSetting(name, value).None? then None
      else
        match more
        case EndMembers => Some([ReadSetting(name, value).value])
        case NextMember(rest) =>
          if ReadSettings(rest).None? then None else Some([ReadSetting(name, value).value] + ReadSettings(rest).value)
  }

  function ReadEntry(raw: string, v: Json): Option<Entry> {
    if Plain(raw).None? then None
    else
      var name := Plain(raw).value;
      if name == "ni_log_format" then
        if v.Lit? && v.l.LString? && Plain(v.l.raw).Some? then Some(LogFormat(Plain(v.l.raw).value)) else None
      else if name == "ni_create_log_dirs" then
        if v.Lit? && (v.l.LTrue? || v.l.LFalse?) then Some(LogDirs(v.l.LTrue?)) else None
      else if v.Object? && ReadSettings(v.members).Some? then Some(Application(name, ReadSettings(v.members).value))
      else None
  }

  function ReadEntries(m: Members): Option<seq<Entry>> {
    match m
    case NoMember(_) => Some([])
    case Member(_, name, _, _, value, _, more) =>
      if ReadEntry(name, value).None? then None
      else
        match more
        case EndMembers => Some([ReadEntry(name, value).value])
        case NextMember(rest) =>
          if ReadEntries(rest).None? then None else Some([ReadEntry(name, value).value] + ReadEntries(rest).value)
  }

  /** Settings that hold at least one leaf. */
  predicate Visible(settings: seq<Setting>) {
    settings != [] && (settings[0] != Args([]) || Visible(settings[1..]))
  }

  /** The last value given to a key, or the default. */
  function LastText(settings: seq<Setting>, k: TextKey): Option<string> {
    if settings == [] then None
    else if LastText(settings[1..], k).Some? then LastText(settings[1..], k)
    else if settings[0].Text? && settings[0].t == k then Some(settings[0].v)
    else None
  }

  function LastFlag(settings: seq<Setting>, k: FlagKey): Option<bool> {
    if settings == [] then None
    else if LastFlag(settings[1..], k).Some? then LastFlag(settings[1..], k)
    else if settings[0].Flag? && settings[0].f == k then Some(settings[0].b)
    else None
  }

  function LastNumber(settings: seq<Setting>, k: NumberKey): Option<int> {
    if settings == [] then None
    else if LastNumber(settings[1..], k).Some? then LastNumber(settings[1..], k)
    else if settings[0].Number? && settings[0].n == k then Some(settings[0].k)
    else None
  }

  function AllArgs(settings: seq<Setting>): seq<string> {
    if settings == [] then []
    else (if settings[0].Args? then settings[0].list else []) + AllArgs(settings[1..])
  }

  function Or<T>(o: Option<T>, d: T): T {
    if o.Some? then o.value else d
  }

  /** The application a list of settings declares: the last value of each key, all
      the arguments in order, and the documented defaults. */
  function AppOf(name: string, s: seq<Setting>): App {
    App(name, LastText(s, PathKey), AllArgs(s),
        Or(LastFlag(s, AutorestartKey), false), Or(LastFlag(s, AutostartKey), true),
        LastText(s, PrefixKey), LastText(s, StdoutKey), LastText(s, StderrKey),
        Or(LastFlag(s, StdoutPassKey), false), Or(LastFlag(s, StderrPassKey), false),
        Or(LastNumber(s, StdoutSizeKey), 0), Or(LastNumber(s, StdoutCountKey), 1),
        Or(LastNumber(s, StderrSizeKey), 0), Or(LastNumber(s, StderrCountKey), 1))
  }

  /** The settings of one application: neighbours of the same name are one. */
  datatype Block = Block(name: string, settings: seq<Setting>)

  /** An application without any leaf is not seen at all. */
  predicate Shown(e: Entry) {
    e.Application? ==> Visible(e.settings)
  }

  ghost predicate AnyShown(entries: seq<Entry>) {
    exists k :: 0 <= k < |entries| && Shown(entries[k])
  }

  function Blocks(entries: seq<Entry>): seq<Block>
    decreases |entries|
  {
    if entries == [] then [] else AddEntry(Blocks(Pop(entries)), Last(entries))
  }

  function AddEntry(blocks: seq<Block>, e: Entry): seq<Block> {
    if !e.Application? || !Shown(e) then blocks
    else if blocks != [] && Last(blocks).name == e.name then
      Pop(blocks) + [Block(e.name, Last(blocks).settings + e.settings)]
    else blocks + [Block(e.name, e.settings)]
  }

  function AppsOf(blocks: seq<Block>): (apps: seq<App>)
    ensures |apps| == |blocks|
    decreases |blocks|
  {
    if blocks == [] then [] else AppsOf(Pop(blocks)) + [AppOf(Last(blocks).name, Last(blocks).settings)]
  }

  function LastFormat(entries: seq<Entry>): Option<string>
    decreases |entries|
  {
    if entries == [] then None
    else if Last(entries).LogFormat? then Some(Last(entries).format)
    else LastFormat(Pop(entries))
  }

  function LastDirs(entries: seq<Entry>): Option<bool>
    decreases |entries|
  {
    if entries == [] then None
    else if Last(entries).LogDirs? then Some(Last(entries).create)
    else LastDirs(Pop(entries))
  }

  /** The configuration the entries declare. */
  function Declared(entries: seq<Entry>): Config {
    Config(AppsOf(Blocks(entries)), LastFormat(entries), Or(LastDirs(entries), true))
  }

  /** Every block has a path. */
  predicate AllHavePaths(blocks: seq<Block>)
    decreases |blocks|
  {
    blocks == [] || (AllHavePaths(Pop(blocks)) && LastText(Last(blocks).settings, PathKey).Some?)
  }

  /** The first application has the empty name, which the loader takes for its own start
      value: it never makes room for it. */
  predicate Nameless(entries: seq<Entry>) {
    Blocks(entries) != [] && Blocks(entries)[0].name == ""
  }
}
