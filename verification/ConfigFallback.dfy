/** When config_init falls back to the default configuration. */
module ConfigFallback {
  import opened CText
  import opened JsonMachine
  import opened JsonDocument
  import opened Config
  import opened ConfigLoading
  import JsonParsing
  import JsonRefusals
  import P = JsonParser

  /** The leaves of a file's text, and how its parse ends when no callback stops it. */
  ghost function Ran(bytes: string): Result {
    Run(Cut(bytes), 32, START)
  }

  /** What the callback makes of the leaves, and whether it stopped the parse. */
  ghost function Told(bytes: string, jsonObject: Option<string>): (Message, bool) {
    Feed(Base(jsonObject), Ran(bytes).events, StartMessage(jsonObject))
  }

  ghost predicate EveryAppHasAPath(apps: seq<App>) {
    forall k :: 0 <= k < |apps| ==> apps[k].path.Some?
  }

  /** Loading, in full: what was declared is kept when the parse ended well, by itself or
      stopped by the callback, the callback reported code 0, and every application has a
      path. Anything else leaves the defaults: no application, no format, directories
      created. */
  lemma LoadExact(bytes: string, jsonObject: Option<string>)
    ensures var (m, stopped) := Told(bytes, jsonObject);
      Load(Some(bytes), jsonObject) ==
        if m.code == -1 || (!stopped && Ran(bytes).outcome.Undefined?) then Unpredictable
        else if (stopped || Ran(bytes).outcome.Success?) && m.code == 0 && EveryAppHasAPath(m.config.apps)
          then Loaded(m.config)
        else Loaded(Config([], None, true))
  {
    hide Run, Feed, P.Deliver, Handler, OnEvent;
    FeedIsDeliver(Base(jsonObject), Ran(bytes).events, StartMessage(jsonObject));
    CompleteIs(Told(bytes, jsonObject).0.config.apps);
  }

  lemma NoFile(jsonObject: Option<string>)
    ensures Load(None, jsonObject) == Loaded(Config([], None, true))
  {
  }

  lemma {:induction false} CompleteIs(apps: seq<App>)
    ensures Complete(apps) <==> EveryAppHasAPath(apps)
    decreases |apps|
  {
    if apps != [] {
      CompleteIs(Pop(apps));
      assert forall k :: 0 <= k < |Pop(apps)| ==> Pop(apps)[k] == apps[k];
    }
  }

  /** A text the parser rejects, with whatever it declares before its error, is not loaded. */
  lemma RejectedText(bytes: string, jsonObject: Option<string>)
    requires Ran(bytes).outcome.ErrorAt? || Ran(bytes).outcome.NoMemory?
    requires !Told(bytes, jsonObject).1 && Told(bytes, jsonObject).0.code != -1
    ensures Load(Some(bytes), jsonObject) == Loaded(Config([], None, true))
  {
    hide Run, Feed, Load;
    LoadExact(bytes, jsonObject);
  }

  /** A document nested too deep for the path memory is not loaded. */
  lemma TooDeep(t: string, d: Document, jsonObject: Option<string>)
    requires ValidDocument(d) && t == PrintDocument(d) && IsCString(t) && DocumentSlots(d) > 32
    requires !Told(t, jsonObject).1 && Told(t, jsonObject).0.code != -1
    ensures Load(Some(t), jsonObject) == Loaded(Config([], None, true))
  {
    hide Run, Feed, Load, ValidDocument, PrintDocument, DocumentSlots, IsCString;
    JsonParsing.ParsePrinted(t, 32, d);
    RejectedText(t, jsonObject);
  }

  /** A whole configuration with something behind it is not loaded either. */
  lemma Trailed(bytes: string, d: Document, jsonObject: Option<string>)
    requires ValidDocument(d) && d.end == "" && DocumentSlots(d) <= 32 && JsonParsing.KeepsRoot(d.root)
    requires Reads(Cut(bytes), 0, PrintDocument(d)) && |PrintDocument(d)| < |Cut(bytes)|
    requires var c := Cut(bytes)[|PrintDocument(d)|]; c != '/' && c != ' ' && c != '\t' && c != '\r' && c != '\n'
    requires var (m, stopped) := Feed(Base(jsonObject), Leaves(d.root, []), StartMessage(jsonObject));
      !stopped && m.code != -1
    ensures Load(Some(bytes), jsonObject) == Loaded(Config([], None, true))
  {
    hide Run, Feed, Load, ValidDocument, PrintDocument, DocumentSlots, Cut, Leaves, JsonParsing.KeepsRoot, Reads;
    JsonRefusals.BehindDocument(Cut(bytes), 32, d);
    RejectedText(bytes, jsonObject);
  }
}
