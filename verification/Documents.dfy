// The version 1 configuration document: its shape, the schema's rules, how its items are read and
// the engine actions it stands for. Arrays the parser treats alike when absent and when empty are
// sequences; the others are optional.
module Documents {
  import opened Text
  import opened Entries
  import opened Store

  // A streaming item names files (isName) or directories.
  datatype StreamItem = StreamItem(
    isName: bool, paths: seq<string>, committed: Option<string>, mode: Option<string>,
    fileDeps: Option<seq<string>>, nFiles: Option<int>)

  datatype App = App(name: string, inputs: seq<string>, outputs: seq<string>, streaming: seq<StreamItem>)

  datatype Document = Document(
    name: string, ioGraph: seq<App>, permanent: seq<string>, exclude: seq<string>,
    memory: seq<string>, fileSystem: seq<string>)

  // ---- The schema ----

  const COUNTED := "on_close:"

  predicate CommittedPattern(committed: string, isName: bool) {
    || committed in [ON_CLOSE, ON_FILE, ON_TERMINATION]
    || (!isName && committed == ON_N_FILES)
    || (COUNTED <= committed && committed != COUNTED && AllDigits(committed[|COUNTED|..]))
  }

  predicate ItemSchema(item: StreamItem) {
    && (item.committed.Some? ==>
          && CommittedPattern(item.committed.value, item.isName)
          && (item.committed.value == ON_FILE ==> item.fileDeps.Some?)
          && (item.committed.value == ON_N_FILES ==> item.nFiles.Some?))
    && (item.mode.Some? ==> item.mode.value in [UPDATE, NO_UPDATE])
  }

  predicate AppSchema(app: App) {
    forall item | item in app.streaming :: ItemSchema(item)
  }

  predicate Schema(doc: Document) {
    forall app | app in doc.ioGraph :: AppSchema(app)
  }

  // ---- Reading an item ----

  function Rule(item: StreamItem): string {
    if item.committed.None? then ON_TERMINATION else Before(item.committed.value, ':')
  }

  // None where std::stoi throws.
  function CloseCount(item: StreamItem): Option<int> {
    if item.committed.None? then Some(0)
    else
      var c := item.committed.value;
      var rule := Before(c, ':');
      if rule == c then Some(0) else Stoi(c[|rule| + 1..])
  }

  function Mode(item: StreamItem): string {
    if item.mode.None? then NO_UPDATE else item.mode.value
  }

  function FileCount(item: StreamItem): int {
    if item.nFiles.Some? && !item.isName then item.nFiles.value else 0
  }

  function Dependencies(item: StreamItem): seq<string> {
    if item.committed.Some? && Rule(item) == ON_FILE && item.fileDeps.Some? then item.fileDeps.value else []
  }

  predicate AppCountsFit(app: App) {
    forall item | item in app.streaming :: CloseCount(item).Some?
  }

  predicate CountsFit(doc: Document) {
    forall app | app in doc.ioGraph :: AppCountsFit(app)
  }

  // The documents the parser turns into an engine.
  predicate Accepted(doc: Document) {
    Schema(doc) && CountsFit(doc)
  }

  lemma PlainRule(rule: string)
    requires ValidCommitRule(rule)
    ensures ':' !in rule && Before(rule, ':') == rule
  {
    hide Before;
    BeforeWhole(rule, ':');
  }

  lemma CountedRule(digits: string)
    ensures Before(COUNTED + digits, ':') == ON_CLOSE && COUNTED + digits != ON_CLOSE
  {
    assert COUNTED + digits == ON_CLOSE + (":" + digits);
    PlainRule(ON_CLOSE);
    BeforeSeparator(ON_CLOSE, ':', ":" + digits);
  }

  // A well-formed item carries a valid rule and mode, and a count only with on_close.
  lemma ItemReads(item: StreamItem)
    requires ItemSchema(item)
    ensures ValidCommitRule(Rule(item)) && ValidFireRule(Mode(item))
    ensures item.isName ==> Rule(item) != ON_N_FILES
    ensures item.committed.Some? && Rule(item) == item.committed.value ==> CloseCount(item) == Some(0)
    ensures item.committed.Some? && Rule(item) != item.committed.value ==> Rule(item) == ON_CLOSE
  {
    hide Before;
    if item.committed.Some? {
      var c := item.committed.value;
      if COUNTED <= c {
        assert c == COUNTED + c[|COUNTED|..];
        CountedRule(c[|COUNTED|..]);
      } else {
        PlainRule(c);
      }
    }
  }

  // What each part of an item is read as, on the item's own fields.
  lemma ItemFieldsRead(item: StreamItem)
    ensures Mode(item) == if item.mode.None? then "no_update" else item.mode.value
    ensures FileCount(item) == if item.isName || item.nFiles.None? then 0 else item.nFiles.value
    ensures item.committed.None? ==> Rule(item) == "on_termination" && CloseCount(item) == Some(0) && Dependencies(item) == []
    ensures forall c | item.committed == Some(c) && ':' !in c ::
      && Rule(item) == c && CloseCount(item) == Some(0)
      && Dependencies(item) == if c == "on_file" && item.fileDeps.Some? then item.fileDeps.value else []
    ensures forall rule, text | item.committed == Some(rule + (":" + text)) && ':' !in rule ::
      && Rule(item) == rule && CloseCount(item) == Stoi(text)
      && Dependencies(item) == if rule == "on_file" && item.fileDeps.Some? then item.fileDeps.value else []
  {
    hide Before, Stoi;
    if item.committed.Some? {
      var c := item.committed.value;
      BeforeWhole(c, ':');
      forall rule, text | c == rule + (":" + text) && ':' !in rule
        ensures Rule(item) == rule && CloseCount(item) == Stoi(text)
      {
        BeforeSeparator(rule, ':', ":" + text);
        assert c[|rule| + 1..] == text;
      }
    }
  }

  lemma CountRead(item: StreamItem, n: int)
    requires item.committed == Some("on_close:" + IntText(n))
    ensures Rule(item) == "on_close" && CloseCount(item) == if FitsInt(n) then Some(n) else None
  {
    hide Stoi, IntText, Before;
    PlainRule(ON_CLOSE);
    assert "on_close:" + IntText(n) == "on_close" + (":" + IntText(n));
    ItemFieldsRead(item);
    StoiOfIntText(n);
  }

  // What the schema admits, spelt out.
  lemma ItemSchemaRead(item: StreamItem)
    ensures ItemSchema(item) <==>
      && (item.mode.None? || item.mode.value == "update" || item.mode.value == "no_update")
      && (|| item.committed.None?
          || item.committed.value in ["on_close", "on_termination"]
          || (item.committed.value == "on_file" && item.fileDeps.Some?)
          || (item.committed.value == "on_n_files" && !item.isName && item.nFiles.Some?)
          || (exists digits :: item.committed.value == "on_close:" + digits && digits != ""
                && forall d | d in digits :: '0' <= d <= '9'))
  {
    if item.committed.Some? {
      var c := item.committed.value;
      if COUNTED <= c {
        assert c == COUNTED + c[|COUNTED|..];
        assert |c| > 8 && c[8] == ':' && c[3] == 'c';
      }
      forall digits | c == "on_close:" + digits
        ensures COUNTED <= c && c[|COUNTED|..] == digits
      {
      }
    }
  }

  // ---- The actions a document stands for ----

  function PathActions(item: StreamItem, p: string): seq<Action> {
    (if FileCount(item) != 0 then Pinning(p, FileCount(item)) else [])
    + Setting(p, SetKind(item.isName))
    + Setting(p, SetCommitRule(Rule(item)))
    + Setting(p, SetFireRule(Mode(item)))
    + Setting(p, SetCloseCount(if CloseCount(item).Some? then CloseCount(item).value else 0))
    + SettingDependencies(p, Dependencies(item))
  }

  function ItemActions(item: StreamItem, paths: seq<string>): seq<Action> {
    if paths == [] then []
    else ItemActions(item, paths[..|paths| - 1]) + PathActions(item, paths[|paths| - 1])
  }

  function StreamActions(items: seq<StreamItem>): seq<Action> {
    if items == [] then []
    else StreamActions(items[..|items| - 1]) + ItemActions(items[|items| - 1], items[|items| - 1].paths)
  }

  // Each listed path is created and then changed.
  function ListActions(paths: seq<string>, c: Change): seq<Action> {
    if paths == [] then []
    else ListActions(paths[..|paths| - 1], c) + ([New(paths[|paths| - 1])] + Setting(paths[|paths| - 1], c))
  }

  function AppActions(app: App): seq<Action> {
    ListActions(app.inputs, AddConsumer(Strip(app.name)))
    + ListActions(app.outputs, AddProducer(Strip(app.name)))
    + StreamActions(app.streaming)
  }

  function GraphActions(apps: seq<App>): seq<Action> {
    if apps == [] then [] else GraphActions(apps[..|apps| - 1]) + AppActions(apps[|apps| - 1])
  }

  // Storage paths go straight to the setters.
  function StorageActions(paths: seq<string>, inMemory: bool): seq<Action> {
    if paths == [] then []
    else StorageActions(paths[..|paths| - 1], inMemory) + Setting(paths[|paths| - 1], SetInMemory(inMemory))
  }

  function TailActions(doc: Document, memoryOnly: bool): seq<Action> {
    ListActions(doc.permanent, SetPermanent(true))
    + ListActions(doc.exclude, SetExcluded(true))
    + StorageActions(doc.memory, true)
    + StorageActions(doc.fileSystem, false)
    + (if memoryOnly then [Raise, EditAll(SetInMemory(true))] else [])
  }

  function DocumentActions(doc: Document, memoryOnly: bool): seq<Action> {
    GraphActions(doc.ioGraph) + TailActions(doc, memoryOnly)
  }
}
