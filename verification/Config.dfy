/** config.c: the configuration as a fold over parse events. */
module Config {
  import opened CText
  import opened JsonMachine
  import P = JsonParser
  import S = PathString
  import U = Unescape

  const PATH_MAX := 32
  const BUFFER_SIZE := 1024

  const OK := 0
  const NOT_FOUND := 1
  const BAD_PARAMETERS := 2
  const NO_MEMORY := 3
  const BAD_STRING := 4
  /** Not a code of the source: it indexes its application array at -1, or a decoded
      text fills a buffer and its terminator goes behind it. */
  const UNDEFINED := -1

  datatype App = App(name: string, path: Option<string>, args: seq<string>, autorestart: bool, autostart: bool,
                     prefixLogs: Option<string>, stdoutPath: Option<string>, stderrPath: Option<string>,
                     stdoutPassthrough: bool, stderrPassthrough: bool,
                     stdoutSize: int, stdoutCount: int, stderrSize: int, stderrCount: int)

  datatype Config = Config(apps: seq<App>, logFormat: Option<string>, createLogDirs: bool)

  const DEFAULT := Config([], None, true)

  function DefaultApp(name: string): App {
    App(name, None, [], false, true, None, None, None, false, false, 0, 1, 0, 1)
  }

  datatype TextKey = PathKey | PrefixKey | StdoutKey | StderrKey
  datatype FlagKey = AutorestartKey | AutostartKey | StdoutPassKey | StderrPassKey
  datatype NumberKey = StdoutSizeKey | StdoutCountKey | StderrSizeKey | StderrCountKey
  datatype Key = IsText(t: TextKey) | IsFlag(f: FlagKey) | IsNumber(n: NumberKey) | IsArgs

  function KeyOf(name: string): Option<Key> {
    if name == "path" then Some(IsText(PathKey))
    else if name == "args" then Some(IsArgs)
    else if name == "autorestart" then Some(IsFlag(AutorestartKey))
    else if name == "autostart" then Some(IsFlag(AutostartKey))
    else if name == "prefix_logs" then Some(IsText(PrefixKey))
    else if name == "stdout" then Some(IsText(StdoutKey))
    else if name == "stdout_passthrough" then Some(IsFlag(StdoutPassKey))
    else if name == "stderr" then Some(IsText(StderrKey))
    else if name == "stderr_passthrough" then Some(IsFlag(StderrPassKey))
    else if name == "stdout_rotate_size" then Some(IsNumber(StdoutSizeKey))
    else if name == "stdout_rotate_count" then Some(IsNumber(StdoutCountKey))
    else if name == "stderr_rotate_size" then Some(IsNumber(StderrSizeKey))
    else if name == "stderr_rotate_count" then Some(IsNumber(StderrCountKey))
    else None
  }

  function SetText(a: App, k: TextKey, v: string): App {
    match k
    case PathKey => a.(path := Some(v))
    case PrefixKey => a.(prefixLogs := Some(v))
    case StdoutKey => a.(stdoutPath := Some(v))
    case StderrKey => a.(stderrPath := Some(v))
  }

  function SetFlag(a: App, k: FlagKey, v: bool): App {
    match k
    case AutorestartKey => a.(autorestart := v)
    case AutostartKey => a.(autostart := v)
    case StdoutPassKey => a.(stdoutPassthrough := v)
    case StderrPassKey => a.(stderrPassthrough := v)
  }

  function SetNumber(a: App, k: NumberKey, v: int): App {
    match k
    case StdoutSizeKey => a.(stdoutSize := v)
    case StdoutCountKey => a.(stdoutCount := v)
    case StderrSizeKey => a.(stderrSize := v)
    case StderrCountKey => a.(stderrCount := v)
  }

  datatype Phase = Searching | Found | Finished

  /** The config_message_t of the callback, with the configuration it fills. */
  datatype Message = Message(state: Phase, code: int, currentApp: string, config: Config)

  /** A name or a string value, decoded into the callback's buffer. */
  datatype Decoding = Fits(text: string) | Bad | Overrun

  function Field(raw: string): Decoding {
    match U.Decode(raw + "\"", |raw|, 0, 0, BUFFER_SIZE)
    case Decoded(b) => if |b| >= BUFFER_SIZE then Overrun else Fits(Cut(b))
    case _ => Bad
  }

  /** The code for a text that cannot be used. */
  function FieldCode(f: Decoding): int {
    if f.Bad? then BAD_STRING else UNDEFINED
  }

  /** When a text fits the buffer, and when it overruns it. */
  lemma FieldExact(raw: string)
    ensures Field(raw).Fits? <==> U.TextOf(raw).Some? && |U.TextOf(raw).value| < 1024
    ensures Field(raw).Fits? ==> Field(raw).text == Cut(U.TextOf(raw).value)
    ensures Field(raw).Overrun? <==>
      U.TextOf(raw).Some? && |U.TextOf(raw).value| == 1024 && U.EndsNarrow(raw + "\"", |raw|, 0)
  {
    hide U.Decode, U.Text, U.EndsNarrow;
    U.DecodeExact(raw + "\"", |raw|, 0, 0, BUFFER_SIZE);
  }

  /** config_path_is_inside_json_object */
  predicate Inside(base: string, path: string) {
    base == "" || (|path| > |base| && path[..|base|] == base && path[|base|] == '/')
  }

  function Slashes(s: string): nat {
    if s == "" then 0 else Slashes(Pop(s)) + if Last(s) == '/' then 1 else 0
  }

  /** json_object_components, an eight-bit counter. */
  function Components(base: string): nat {
    Slashes(base) % 256
  }

  function Refuse(m: Message, code: int): (Message, int) {
    (m.(code := code), 1)
  }

  /** An application's name: a new one starts a new application. */
  function Enter(m: Message, name: string): Message {
    if m.currentApp == name then m
    else m.(currentApp := name, config := m.config.(apps := m.config.apps + [DefaultApp(name)]))
  }

  function PutApp(m: Message, a: App): Message
    requires m.config.apps != []
  {
    m.(config := m.config.(apps := Pop(m.config.apps) + [a]))
  }

  /** One property of the last application; at is the first path position after its key. */
  function Assign(at: nat, m: Message, k: Key, e: Event): (Message, int)
    requires m.config.apps != []
  {
    var a := Last(m.config.apps);
    var end := if k.IsArgs? && at < |e.path| && e.path[at].Index? then at + 1 else at;
    if |e.path| != end then Refuse(m, BAD_PARAMETERS)
    else
      match k
      case IsFlag(f) =>
        if e.value.Bool? then (PutApp(m, SetFlag(a, f, e.value.b)), 0) else Refuse(m, BAD_PARAMETERS)
      case IsNumber(n) =>
        if e.value.Integer? && 0 <= e.value.n then (PutApp(m, SetNumber(a, n, e.value.n)), 0)
        else Refuse(m, BAD_PARAMETERS)
      case _ =>
        if !e.value.Str? then Refuse(m, BAD_PARAMETERS)
        else if !Field(e.value.raw).Fits? then Refuse(m, FieldCode(Field(e.value.raw)))
        else
          var v := Field(e.value.raw).text;
          (PutApp(m, if k.IsText? then SetText(a, k.t, v) else a.(args := a.args + [v])), 0)
  }

  function Property(at: nat, m: Message, e: Event): (Message, int) {
    if |e.path| <= at || e.path[at].Index? then Refuse(m, BAD_PARAMETERS)
    else if !Field(e.path[at].raw).Fits? then Refuse(m, FieldCode(Field(e.path[at].raw)))
    else
      match KeyOf(Field(e.path[at].raw).text)
      case None => Refuse(m, BAD_PARAMETERS)
      case Some(k) => if m.config.apps == [] then Refuse(m, UNDEFINED) else Assign(at + 1, m, k, e)
  }

  function SetLogFormat(m: Message, format: Decoding): (Message, int) {
    if format.Fits? then (m.(config := m.config.(logFormat := Some(format.text))), 0) else Refuse(m, FieldCode(format))
  }

  /** A leaf below the object: one of the two settings of its own, or a property. */
  function Declare(at: nat, m: Message, e: Event): (Message, int) {
    if |e.path| <= at || e.path[at].Index? then Refuse(m, BAD_PARAMETERS)
    else if !Field(e.path[at].raw).Fits? then Refuse(m, FieldCode(Field(e.path[at].raw)))
    else
      var name := Field(e.path[at].raw).text;
      if name == "ni_log_format" then
        if |e.path| != at + 1 || !e.value.Str? then Refuse(m, BAD_PARAMETERS)
        else SetLogFormat(m, Field(e.value.raw))
      else if name == "ni_create_log_dirs" then
        if |e.path| != at + 1 || !e.value.Bool? then Refuse(m, BAD_PARAMETERS)
        else (m.(config := m.config.(createLogDirs := e.value.b)), 0)
      else Property(at + 1, Enter(m, name), e)
  }

  /** edJSON_callback: the new message, and a non-zero code to stop the parser. */
  function OnEvent(base: string, m: Message, e: Event): (Message, int) {
    match S.BuildPath("", e.path, BUFFER_SIZE)
    case Failed(rc) => (m.(code := NO_MEMORY), rc)
    case Overrun => Refuse(m, UNDEFINED)
    case Built(text) =>
      if m.state.Finished? then Refuse(m, OK)
      else if Inside(base, Cut(text)) then
        Declare(Components(base), if m.state.Searching? then m.(state := Found, code := OK) else m, e)
      else if m.state.Found? then Refuse(m.(state := Finished), OK)
      else (m, 0)
  }

  function Handler(base: string): (Message, Event) -> (Message, int) {
    (m, e) => OnEvent(base, m, e)
  }

  function Base(jsonObject: Option<string>): string {
    match jsonObject
    case None => ""
    case Some(s) => s
  }

  function StartMessage(jsonObject: Option<string>): Message {
    match jsonObject
    case None => Message(Found, OK, "", DEFAULT)
    case Some(_) => Message(Searching, NOT_FOUND, "", DEFAULT)
  }

  datatype Loaded = Loaded(config: Config) | Unpredictable

  predicate Complete(apps: seq<App>) {
    apps == [] || (Complete(Pop(apps)) && Last(apps).path.Some?)
  }

  /** The tail of config_init: the configuration as filled, or the default one. */
  function Accept(outcome: Outcome, m: Message): Loaded {
    if outcome.Undefined? || m.code == UNDEFINED then Unpredictable
    else if outcome.Success? && m.code == OK && Complete(m.config.apps) then Loaded(m.config)
    else Loaded(DEFAULT)
  }

  /** config_init on the contents of a configuration file, when one could be read. */
  ghost function Load(content: Option<string>, jsonObject: Option<string>): Loaded {
    match content
    case None => Loaded(DEFAULT)
    case Some(bytes) =>
      var (outcome, m) := P.Parsed(Cut(bytes), PATH_MAX, Handler(Base(jsonObject)), StartMessage(jsonObject));
      Accept(outcome, m)
  }

  /** The callback as the code has it: its state is fields, updated in place. It is proved
      equal to OnEvent, the form in which it is handed to the parser, since a method is no
      value that could be passed on. */
  class Loader {
    const jsonObject: string
    var components: nat
    var state: Phase
    var returnCode: int
    var currentApp: string
    var applications: seq<App>
    var logFormat: Option<string>
    var createLogDirs: bool

    ghost function View(): Message
      reads this
    {
      Message(state, returnCode, currentApp, Config(applications, logFormat, createLogDirs))
    }

    ghost predicate Valid()
      reads this
    {
      components == Components(jsonObject)
    }

    constructor (jsonObject: Option<string>)
      ensures Valid() && View() == StartMessage(jsonObject) && this.jsonObject == Base(jsonObject)
    {
      this.jsonObject := Base(jsonObject);
      state := if jsonObject.None? then Found else Searching;
      returnCode := if jsonObject.None? then OK else NOT_FOUND;
      currentApp, applications, logFormat, createLogDirs := "", [], None, true;
      components := 0;
      new;
      for i := 0 to |this.jsonObject|
        invariant components == Slashes(this.jsonObject[..i]) % 256
        invariant View() == StartMessage(jsonObject)
      {
        assert Pop(this.jsonObject[..i + 1]) == this.jsonObject[..i];
        if this.jsonObject[i] == '/' { components := (components + 1) % 256; }
      }
      assert this.jsonObject[..|this.jsonObject|] == this.jsonObject;
    }

    method SetProperty(at: nat, k: Key, e: Event) returns (rc: int)
      requires Valid() && applications != []
      modifies this
      ensures Valid() && (View(), rc) == Assign(at, old(View()), k, e)
    {
      hide Field, SetText, SetFlag, SetNumber;
      var last := |applications| - 1;
      var component := at;
      if k.IsArgs? && component < |e.path| && e.path[component].Index? { component := component + 1; }
      if |e.path| != component { returnCode := BAD_PARAMETERS; return 1; }
      var a := applications[last];
      if k.IsFlag? {
        if !e.value.Bool? { returnCode := BAD_PARAMETERS; return 1; }
        a := SetFlag(a, k.f, e.value.b);
      } else if k.IsNumber? {
        if !e.value.Integer? || e.value.n < 0 { returnCode := BAD_PARAMETERS; return 1; }
        a := SetNumber(a, k.n, e.value.n);
      } else {
        if !e.value.Str? { returnCode := BAD_PARAMETERS; return 1; }
        var v := Field(e.value.raw);
        if !v.Fits? { returnCode := FieldCode(v); return 1; }
        a := if k.IsText? then SetText(a, k.t, v.text) else a.(args := a.args + [v.text]);
      }
      applications := applications[..last] + [a];
      return 0;
    }

    method AddProperty(at: nat, name: string, e: Event) returns (rc: int)
      requires Valid()
      modifies this
      ensures Valid() && (View(), rc) == Property(at, Enter(old(View()), name), e)
    {
      hide Field, KeyOf, Assign;
      if currentApp != name {
        currentApp := name;
        applications := applications + [DefaultApp(name)];
      }
      if at >= |e.path| || e.path[at].Index? { returnCode := BAD_PARAMETERS; return 1; }
      var field := Field(e.path[at].raw);
      if !field.Fits? { returnCode := FieldCode(field); return 1; }
      var key := KeyOf(field.text);
      if key.None? { returnCode := BAD_PARAMETERS; return 1; }
      if applications == [] { returnCode := UNDEFINED; return 1; }
      rc := SetProperty(at + 1, key.value, e);
    }

    method AddLeaf(e: Event) returns (rc: int)
      requires Valid()
      modifies this
      ensures Valid() && (View(), rc) == Declare(Components(jsonObject), old(View()), e)
    {
      hide Field, Property, Components;
      var at := components;
      if |e.path| <= at || e.path[at].Index? { returnCode := BAD_PARAMETERS; return 1; }
      var field := Field(e.path[at].raw);
      if !field.Fits? { returnCode := FieldCode(field); return 1; }
      if field.text == "ni_log_format" {
        if |e.path| != at + 1 || !e.value.Str? { returnCode := BAD_PARAMETERS; return 1; }
        var v := Field(e.value.raw);
        if !v.Fits? { returnCode := FieldCode(v); return 1; }
        logFormat := Some(v.text);
        return 0;
      }
      if field.text == "ni_create_log_dirs" {
        if |e.path| != at + 1 || !e.value.Bool? { returnCode := BAD_PARAMETERS; return 1; }
        createLogDirs := e.value.b;
        return 0;
      }
      rc := AddProperty(at + 1, field.text, e);
    }

    /** edJSON_callback; state changes and the jump back to its switch. */
    method Callback(e: Event) returns (rc: int)
      requires Valid()
      modifies this
      ensures Valid() && (View(), rc) == OnEvent(jsonObject, old(View()), e)
    {
      hide Declare, Components, Inside, S.BuildPath;
      var path := S.BuildPath("", e.path, BUFFER_SIZE);
      if path.Failed? { returnCode := NO_MEMORY; return path.rc; }
      if path.Overrun? { returnCode := UNDEFINED; return 1; }
      var inside := Inside(jsonObject, Cut(path.text));
      if state.Searching? {
        if !inside { return 0; }
        state, returnCode := Found, OK;
      }
      if state.Found? {
        if inside {
          rc := AddLeaf(e);
          return;
        }
        state := Finished;
      }
      returnCode := OK;
      return 1;
    }
  }

  /** config_init: parse with the callback, then accept the result or fall back. */
  method Init(content: Option<string>, jsonObject: Option<string>) returns (r: Loaded)
    ensures r == Load(content, jsonObject)
  {
    hide OnEvent, Handler, P.Parsed;
    if content.None? { return Loaded(DEFAULT); }
    var mem := new P.Slot[PATH_MAX];
    var rc, m := P.Parse(Some(Cut(content.value)), mem, Handler(Base(jsonObject)), StartMessage(jsonObject));
    if rc.Undefined? || m.code == UNDEFINED { return Unpredictable; }
    var hasConfig := rc.Success? && m.code == OK;
    if hasConfig {
      var i := 0;
      while i < |m.config.apps| && hasConfig
        invariant i <= |m.config.apps| && hasConfig == Complete(m.config.apps[..i])
        invariant !hasConfig ==> !Complete(m.config.apps)
      {
        assert Pop(m.config.apps[..i + 1]) == m.config.apps[..i];
        if m.config.apps[i].path.None? {
          hasConfig := false;
          IncompletePrefix(m.config.apps, i + 1);
        }
        i := i + 1;
      }
      assert m.config.apps[..|m.config.apps|] == m.config.apps;
    }
    return Loaded(if hasConfig then m.config else DEFAULT);
  }

  lemma {:induction false} IncompletePrefix(apps: seq<App>, n: nat)
    requires n <= |apps| && !Complete(apps[..n])
    ensures !Complete(apps)
    decreases |apps|
  {
    if n == |apps| {
      assert apps[..n] == apps;
    } else {
      assert Pop(apps)[..n] == apps[..n];
      IncompletePrefix(Pop(apps), n);
    }
  }
}
