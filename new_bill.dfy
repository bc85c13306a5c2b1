/** The bill-creation controller `NewBill`: it checks the extension of the
    chosen attachment, assembles the ten-field payload on submit, hands it to
    the remote store and navigates to the bill list.

    The first half of the module states each handler as a function from the
    controller's observable state (a `Snapshot`) to the next one, and proves
    what the handlers promise about those functions. The class `NewBill` at
    the end does the same work step by step, on its own fields, and each of its
    methods is proved to produce exactly the state its function describes. */
module NewBillContainer {
  import opened Wrappers
  import opened JsBuiltins
  import opened Dom

  // ---------------------------------------------------------------------
  // Collaborators and constants
  // ---------------------------------------------------------------------

  /** Keys of the application's routing table; the controller only uses `Bills`. */
  datatype Route = Bills

  /** What the controller does to the outside world, in the order it does it. */
  datatype Effect =
    | Alert(message: string)          // window.alert(message)
    | StoreCreate(data: seq<Entry>)   // store.bills().create({data, headers: {noContentType: true}})
    | Navigate(route: Route)          // onNavigate(ROUTES_PATH[route])
    | ConsoleError(error: string)     // console.error(error)

  /** How the promise returned by the store's `create` settles. */
  datatype CreateResponse = Resolved(fileUrl: string, key: string) | Failed(error: string)

  /** What the change handler made of the current selection. `NoFile` is the
      empty selection, on which reading `files[0].name` throws a TypeError
      before anything is assigned. */
  datatype FileCheck = FileAccepted | FileRefused | NoFile

  /** The values the submit handler reads from the form through jQuery `.val()`. */
  datatype FormFields = FormFields(
    expenseType: string, expenseName: string, amount: string, date: string,
    vat: string, pct: string, commentary: string)

  const ValidExtensions: seq<string> := [".png", ".jpg", ".jpeg"]
  const InvalidFileMessage: string := "Veuillez s\U{00E9}lectionner un fichier de type .png, .jpg ou .jpeg."
  const DefaultPct: int := 20
  const PendingStatus: string := "pending"
  const FieldOrder: seq<string> :=
    ["file", "email", "type", "name", "amount", "date", "vat", "pct", "commentary", "status"]

  // ---------------------------------------------------------------------
  // Attachment extension
  // ---------------------------------------------------------------------

  /** The extension the change handler checks: the name from its last `.`
      on, lower-cased. For a name without `.` the slice starts at -1, i.e. at
      the last character. */
  function FileExtension(name: string): (ext: string)
    ensures |ext| <= |name|
    ensures forall i :: 0 <= i < |ext| ==> !IsUpper(ext[i])
  {
    ToLowerCase(Slice(name, LastIndexOf(name, '.')))
  }

  /** With a `.` in the name the extension is a `.` followed by no other
      `.`; without one it is at most one character; it is always lower-case. */
  lemma ExtensionShape(name: string)
    ensures var ext := FileExtension(name);
            ('.' in name ==> ext != [] && ext[0] == '.' && '.' !in ext[1..])
            && ('.' !in name ==> |ext| <= 1)
            && (forall i :: 0 <= i < |ext| ==> !IsUpper(ext[i]))
  {
    var k := LastIndexOf(name, '.');
    var slice := Slice(name, k);
    var ext := ToLowerCase(slice);
    if '.' in name {
      assert slice == name[k..];
      forall j | 1 <= j < |ext|
        ensures ext[j] != '.'
      {
        assert ext[j] == LowerChar(name[k + j]) && name[k + j] != '.';
      }
    }
  }

  predicate HasValidExtension(name: string): (accepted: bool)
    ensures accepted ==> |name| >= 4
  {
    FileExtension(name) in ValidExtensions
  }

  /** Reference definition: the name ends with `ext`, ignoring case. */
  predicate EndsWithIgnoringCase(name: string, ext: string) {
    |ext| <= |name| && ToLowerCase(name[|name| - |ext|..]) == ext
  }

  /** The extension is the name's ending of the same length, lower-cased;
      without a `.` that ending is the last character, if any. */
  lemma ExtensionIsSuffix(name: string)
    ensures EndsWithIgnoringCase(name, FileExtension(name))
  {
    var ext := FileExtension(name);
    assert name[|name| - |ext|..] == Slice(name, LastIndexOf(name, '.'));
  }

  /** A name that ends, ignoring case, with a `.` followed by no other `.`
      has exactly that ending as its extension. */
  lemma {:induction false} SuffixIsExtension(name: string, ext: string)
    requires ext != [] && ext[0] == '.' && '.' !in ext[1..]
    requires EndsWithIgnoringCase(name, ext)
    ensures FileExtension(name) == ext
  {
    var j := |name| - |ext|;
    var tail := name[j..];
    LowerCharDot(tail[0]);
    assert name[j] == '.';
    forall m | j < m < |name|
      ensures name[m] != '.'
    {
      LowerCharDot(tail[m - j]);
      assert ext[m - j] in ext[1..];
    }
    assert LastIndexOf(name, '.') == j;
    assert Slice(name, j) == tail;
  }

  /** Each valid extension is a `.` followed by no other `.`, at least four
      characters long, ending with `g`. */
  lemma ValidExtensionsAreDotted(i: nat)
    requires i < |ValidExtensions|
    ensures var ext := ValidExtensions[i];
            |ext| >= 4 && ext[0] == '.' && '.' !in ext[1..] && ext[|ext| - 1] == 'g'
  {
    var ext := ValidExtensions[i];
    if i == 0 {
      assert ext == ".png";
    } else if i == 1 {
      assert ext == ".jpg";
    } else {
      assert ext == ".jpeg";
    }
  }

  /** A name is accepted exactly when it ends, ignoring case, with one of the
      valid extensions. */
  lemma ValidExtensionIffSuffix(name: string)
    ensures HasValidExtension(name) <==>
            exists i :: 0 <= i < |ValidExtensions| && EndsWithIgnoringCase(name, ValidExtensions[i])
  {
    if HasValidExtension(name) {
      ExtensionIsSuffix(name);
      var i :| 0 <= i < |ValidExtensions| && ValidExtensions[i] == FileExtension(name);
      assert EndsWithIgnoringCase(name, ValidExtensions[i]);
    }
    if i :| 0 <= i < |ValidExtensions| && EndsWithIgnoringCase(name, ValidExtensions[i]) {
      ValidExtensionsAreDotted(i);
      SuffixIsExtension(name, ValidExtensions[i]);
    }
  }

  /** A name without any `.` is always refused: the slice is at most its
      last character. */
  lemma NameWithoutDotRefused(name: string)
    requires '.' !in name
    ensures !HasValidExtension(name)
  {
    ExtensionShape(name);
    if i :| 0 <= i < |ValidExtensions| && ValidExtensions[i] == FileExtension(name) {
      ValidExtensionsAreDotted(i);
    }
  }

  /** Names accepted by the change handler, upper-case extensions included. */
  lemma AcceptedLowerCase()
    ensures HasValidExtension("test.png")
  {
    AcceptedExample("test.png", 0);
  }

  lemma AcceptedUpperCase()
    ensures HasValidExtension("test.PNG")
  {
    AcceptedExample("test.PNG", 0);
  }

  lemma AcceptedMixedCase()
    ensures HasValidExtension("photo.Jpeg")
  {
    AcceptedExample("photo.Jpeg", 2);
  }

  lemma AcceptedExample(name: string, i: nat)
    requires i < |ValidExtensions| && |ValidExtensions[i]| <= |name|
    requires forall j :: 0 <= j < |ValidExtensions[i]| ==>
               LowerChar(name[|name| - |ValidExtensions[i]| + j]) == ValidExtensions[i][j]
    ensures HasValidExtension(name)
  {
    var ext := ValidExtensions[i];
    var tail := name[|name| - |ext|..];
    assert ToLowerCase(tail) == ext;
    ValidExtensionsAreDotted(i);
    SuffixIsExtension(name, ext);
  }

  /** Every valid extension ends with `g`, so a name whose last character is
      neither `g` nor `G` is refused, whatever precedes it. */
  lemma RefusedUnlessEndsWithG(name: string)
    requires name == [] || LowerChar(name[|name| - 1]) != 'g'
    ensures !HasValidExtension(name)
  {
    var k := LastIndexOf(name, '.');
    var slice := Slice(name, k);
    var ext := FileExtension(name);
    assert ext == ToLowerCase(slice);
    if i :| 0 <= i < |ValidExtensions| && ValidExtensions[i] == ext {
      ValidExtensionsAreDotted(i);
    }
  }

  /** Names refused by the change handler. */
  lemma RefusedExamples()
    ensures !HasValidExtension("example.txt")
    ensures !HasValidExtension("test.pdf")
    ensures !HasValidExtension("test")
  {
    RefusedUnlessEndsWithG("example.txt");
    RefusedUnlessEndsWithG("test.pdf");
    RefusedUnlessEndsWithG("test");
  }

  // ---------------------------------------------------------------------
  // Payload
  // ---------------------------------------------------------------------

  /** `parseInt(raw) || 20`: the parsed percentage, or 20 when `parseInt`
      gives a falsy value, i.e. `NaN` or 0. */
  function PctOrDefault(raw: string): (pct: int)
    ensures pct != 0
    ensures (ParseInt(raw).Some? && ParseInt(raw).value != 0) ==> pct == ParseInt(raw).value
    ensures (ParseInt(raw).None? || ParseInt(raw) == Some(0)) ==> pct == DefaultPct
  {
    match ParseInt(raw)
    case Some(p) => if p != 0 then p else DefaultPct
    case None => DefaultPct
  }

  /** A typed non-zero integer is kept as the percentage. */
  lemma PctOfTypedInteger(n: int)
    requires n != 0
    ensures PctOrDefault(ShowInt(n)) == n
  {
    ParseIntShowInt(n, "");
    assert ShowInt(n) + "" == ShowInt(n);
  }

  /** An empty field, a non-number and a typed 0 all give the default. */
  lemma PctDefaultExamples()
    ensures PctOrDefault("") == DefaultPct
    ensures PctOrDefault("abc") == DefaultPct
    ensures PctOrDefault("0") == DefaultPct
    ensures PctOrDefault("10") == 10
  {
    ParseIntNaNExamples();
    ParseIntZero();
    ParseIntTen();
  }

  /** `files[0]` of the file input, as `append` stores it: the file, or the
      string `"undefined"` when nothing is selected. */
  function FileValue(selected: seq<File>): (v: FormValue)
    ensures v.Blob? <==> selected != []
    ensures v.Blob? ==> v.file == selected[0]
    ensures selected == [] ==> v == Text("undefined")
  {
    if selected == [] then Text("undefined") else Blob(selected[0])
  }

  /** The user's `email` as `append` stores it; a session record without an
      email gives `"undefined"`. */
  function EmailValue(email: Option<string>): (v: FormValue)
    ensures v.Text?
    ensures email.Some? ==> v.text == email.value
    ensures email.None? ==> v.text == "undefined"
  {
    match email
    case Some(e) => Text(e)
    case None => Text("undefined")
  }

  function EntryNames(entries: seq<Entry>): seq<string> {
    seq(|entries|, i requires 0 <= i < |entries| => entries[i].name)
  }

  /** The ten `append` calls of the submit handler, in their order, each
      adding one entry to the initially empty `FormData`. */
  function AppendAll(file: FormValue, email: FormValue, f: FormFields, amount: string, pct: string): (p: seq<Entry>)
    ensures EntryNames(p) == FieldOrder
    ensures p[0].value == file && p[1].value == email
    ensures p[2].value == Text(f.expenseType) && p[3].value == Text(f.expenseName)
    ensures p[4].value == Text(amount) && p[5].value == Text(f.date) && p[6].value == Text(f.vat)
    ensures p[7].value == Text(pct) && p[8].value == Text(f.commentary)
    ensures p[9].value == Text(PendingStatus)
  {
    [] + [Entry("file", file)]
       + [Entry("email", email)]
       + [Entry("type", Text(f.expenseType))]
       + [Entry("name", Text(f.expenseName))]
       + [Entry("amount", Text(amount))]
       + [Entry("date", Text(f.date))]
       + [Entry("vat", Text(f.vat))]
       + [Entry("pct", Text(pct))]
       + [Entry("commentary", Text(f.commentary))]
       + [Entry("status", Text(PendingStatus))]
  }

  /** The payload the submit handler builds: its fields in the fixed order,
      the selected file (or `"undefined"`) first and `pending` as status. */
  function Payload(selected: seq<File>, email: Option<string>, f: FormFields): (p: seq<Entry>)
    ensures EntryNames(p) == FieldOrder
    ensures p[0].value == FileValue(selected) && p[1].value == EmailValue(email)
    ensures p[2].value == Text(f.expenseType) && p[3].value == Text(f.expenseName)
    ensures p[4].value == Text(NumberToString(ParseInt(f.amount)))
    ensures p[5].value == Text(f.date) && p[6].value == Text(f.vat)
    ensures p[7].value == Text(NumberToString(Some(PctOrDefault(f.pct))))
    ensures p[8].value == Text(f.commentary)
    ensures p[9].value == Text(PendingStatus)
  {
    AppendAll(FileValue(selected), EmailValue(email), f,
              NumberToString(ParseInt(f.amount)), NumberToString(Some(PctOrDefault(f.pct))))
  }

  /** The amount and the percentage travel as strings that parse back to
      the values the handler computed: `NaN` stays `NaN`, and the percentage
      is never 0. */
  lemma PayloadNumbersParseBack(selected: seq<File>, email: Option<string>, f: FormFields)
    ensures var p := Payload(selected, email, f);
      && p[4].value.Text? && ParseInt(p[4].value.text) == ParseInt(f.amount)
      && p[7].value.Text? && ParseInt(p[7].value.text) == Some(PctOrDefault(f.pct))
      && PctOrDefault(f.pct) != 0
  {
    NumberToStringParsesBack(ParseInt(f.amount));
    NumberToStringParsesBack(Some(PctOrDefault(f.pct)));
  }

  // ---------------------------------------------------------------------
  // The controller's state and its transitions
  // ---------------------------------------------------------------------

  /** What can be observed of one controller: its three fields, the file
      input's selection, the effects so far, and the number of `create`
      calls whose promise has not settled yet. */
  datatype Snapshot = Snapshot(
    fileName: Option<string>,
    fileUrl: Option<string>,
    billId: Option<string>,
    selected: seq<File>,
    effects: seq<Effect>,
    pending: nat)

  function Initial(selected: seq<File>): Snapshot {
    Snapshot(None, None, None, selected, [], 0)
  }

  /** Reads the log as append-only: `log` starts with `before`. */
  predicate Extends(log: seq<Effect>, before: seq<Effect>) {
    |before| <= |log| && log[..|before|] == before
  }

  function CheckFile(selected: seq<File>): (r: FileCheck)
    ensures r == NoFile <==> selected == []
    ensures r == FileAccepted <==> selected != [] && HasValidExtension(selected[0].name)
  {
    if selected == [] then NoFile
    else if HasValidExtension(selected[0].name) then FileAccepted
    else FileRefused
  }

  /** The change handler. */
  function ChangeFile(s: Snapshot): (r: Snapshot)
    ensures Extends(r.effects, s.effects) && |r.effects| <= |s.effects| + 1
    ensures r.fileUrl == s.fileUrl && r.billId == s.billId && r.pending == s.pending
    ensures r.selected == [] || r.selected == s.selected
    ensures s.selected == [] ==> r == s
  {
    if s.selected == [] then s
    else
      var t := s.(fileName := Some(s.selected[0].name));
      if HasValidExtension(s.selected[0].name) then t
      else t.(effects := t.effects + [Alert(InvalidFileMessage)], selected := [])
  }

  /** The synchronous part of `createBill`: without a store nothing happens,
      with one the request is sent and its promise is pending. */
  function DispatchCreate(s: Snapshot, data: seq<Entry>, hasStore: bool): (r: Snapshot)
    ensures Extends(r.effects, s.effects)
    ensures |r.effects| - |s.effects| == r.pending - s.pending <= 1
    ensures hasStore <==> r.pending == s.pending + 1
    ensures hasStore ==> r.effects == s.effects + [StoreCreate(data)]
    ensures !hasStore ==> r == s
    ensures r.fileName == s.fileName && r.fileUrl == s.fileUrl && r.billId == s.billId
    ensures r.selected == s.selected
  {
    if hasStore then s.(effects := s.effects + [StoreCreate(data)], pending := s.pending + 1)
    else s
  }

  /** The submit handler once its payload is built: call `createBill`, then
      navigate. */
  function SubmitPayload(s: Snapshot, data: seq<Entry>, hasStore: bool): (r: Snapshot)
    ensures Extends(r.effects, s.effects) && |r.effects| > |s.effects|
    ensures r.effects[|r.effects| - 1] == Navigate(Bills)
    ensures r.fileName == s.fileName && r.fileUrl == s.fileUrl && r.billId == s.billId
    ensures r.selected == s.selected
  {
    var d := DispatchCreate(s, data, hasStore);
    d.(effects := d.effects + [Navigate(Bills)])
  }

  /** The submit handler: build the payload, call `createBill`, navigate. */
  function Submit(s: Snapshot, f: FormFields, email: Option<string>, hasStore: bool): (r: Snapshot)
    ensures Extends(r.effects, s.effects) && |r.effects| > |s.effects|
    ensures r.effects[|r.effects| - 1] == Navigate(Bills)
    ensures r.fileName == s.fileName && r.fileUrl == s.fileUrl && r.billId == s.billId
    ensures r.selected == s.selected
  {
    SubmitPayload(s, Payload(s.selected, email, f), hasStore)
  }

  /** The continuation of `createBill` once the store's promise settles. */
  function Settle(s: Snapshot, response: CreateResponse): (r: Snapshot)
    requires s.pending > 0
    ensures Extends(r.effects, s.effects) && |r.effects| == |s.effects| + 1
    ensures r.pending == s.pending - 1
    ensures r.fileName == s.fileName && r.selected == s.selected
  {
    match response
    case Resolved(url, key) =>
      s.(billId := Some(key), fileUrl := Some(url),
         effects := s.effects + [Navigate(Bills)], pending := s.pending - 1)
    case Failed(error) =>
      s.(effects := s.effects + [ConsoleError(error)], pending := s.pending - 1)
  }

  // ---------------------------------------------------------------------
  // Reading the effect log
  // ---------------------------------------------------------------------

  function NavigationCount(log: seq<Effect>): nat {
    if log == [] then 0
    else NavigationCount(log[..|log| - 1]) + (if log[|log| - 1].Navigate? then 1 else 0)
  }

  function ErrorLog(log: seq<Effect>): seq<string> {
    if log == [] then []
    else ErrorLog(log[..|log| - 1]) + (if log[|log| - 1].ConsoleError? then [log[|log| - 1].error] else [])
  }

  function AlertCount(log: seq<Effect>): nat {
    if log == [] then 0
    else AlertCount(log[..|log| - 1]) + (if log[|log| - 1].Alert? then 1 else 0)
  }

  function StoreRequestCount(log: seq<Effect>): nat {
    if log == [] then 0
    else StoreRequestCount(log[..|log| - 1]) + (if log[|log| - 1].StoreCreate? then 1 else 0)
  }

  lemma {:induction false} LogAppend(a: seq<Effect>, b: seq<Effect>)
    ensures NavigationCount(a + b) == NavigationCount(a) + NavigationCount(b)
    ensures StoreRequestCount(a + b) == StoreRequestCount(a) + StoreRequestCount(b)
    ensures ErrorLog(a + b) == ErrorLog(a) + ErrorLog(b)
    ensures AlertCount(a + b) == AlertCount(a) + AlertCount(b)
  {
    if b == [] {
      assert a + b == a;
    } else {
      assert (a + b)[..|a + b| - 1] == a + b[..|b| - 1];
      LogAppend(a, b[..|b| - 1]);
    }
  }

  // ---------------------------------------------------------------------
  // What the handlers promise
  // ---------------------------------------------------------------------

  /** The chosen file's name is recorded whether or not it is accepted. A
      refused file is announced once and cleared from the input; an accepted
      one leaves the input and the log alone. Nothing else changes. */
  lemma ChangeFileOutcome(s: Snapshot)
    requires s.selected != []
    ensures ChangeFile(s).fileName == Some(s.selected[0].name)
    ensures ChangeFile(s).fileUrl == s.fileUrl && ChangeFile(s).billId == s.billId
    ensures ChangeFile(s).pending == s.pending
    ensures NavigationCount(ChangeFile(s).effects) == NavigationCount(s.effects)
    ensures HasValidExtension(s.selected[0].name) ==>
              ChangeFile(s).selected == s.selected && ChangeFile(s).effects == s.effects
    ensures !HasValidExtension(s.selected[0].name) ==>
              ChangeFile(s).selected == [] && ChangeFile(s).effects == s.effects + [Alert(InvalidFileMessage)]
              && AlertCount(ChangeFile(s).effects) == AlertCount(s.effects) + 1
  {
    LogAppend(s.effects, [Alert(InvalidFileMessage)]);
  }

  /** After the change handler the input is either empty or holds a file
      with a valid extension. */
  lemma ChangeFileKeepsOnlyValidFiles(s: Snapshot)
    ensures ChangeFile(s).selected == [] || HasValidExtension(ChangeFile(s).selected[0].name)
    ensures ChangeFile(s).selected == [] <==> CheckFile(s.selected) != FileAccepted
  {
  }

  /** A file refused by the change handler is gone from the input, so the
      next submit appends `"undefined"` in its place. */
  lemma RefusedFileSubmitsUndefined(s: Snapshot, email: Option<string>, f: FormFields)
    requires s.selected != [] && !HasValidExtension(s.selected[0].name)
    ensures Payload(ChangeFile(s).selected, email, f)[0].value == Text("undefined")
  {
    ChangeFileOutcome(s);
  }

  /** Submitting navigates to the bill list exactly once, as its last
      effect, with or without a store; the store, when there is one, gets the
      payload just before. The controller's fields are left as they were. */
  lemma SubmitNavigatesOnce(s: Snapshot, f: FormFields, email: Option<string>, hasStore: bool)
    ensures var t := Submit(s, f, email, hasStore);
      && NavigationCount(t.effects) == NavigationCount(s.effects) + 1
      && t.effects[|t.effects| - 1] == Navigate(Bills)
      && ErrorLog(t.effects) == ErrorLog(s.effects)
      && t.fileName == s.fileName && t.fileUrl == s.fileUrl && t.billId == s.billId
      && t.selected == s.selected
    ensures hasStore ==>
      Submit(s, f, email, hasStore).effects
        == s.effects + [StoreCreate(Payload(s.selected, email, f)), Navigate(Bills)]
      && Submit(s, f, email, hasStore).pending == s.pending + 1
    ensures !hasStore ==>
      Submit(s, f, email, hasStore).effects == s.effects + [Navigate(Bills)]
      && Submit(s, f, email, hasStore).pending == s.pending
  {
    PayloadNavigatesOnce(s, Payload(s.selected, email, f), hasStore);
  }

  /** The same for any payload. */
  lemma PayloadNavigatesOnce(s: Snapshot, p: seq<Entry>, hasStore: bool)
    ensures var t := SubmitPayload(s, p, hasStore);
      && NavigationCount(t.effects) == NavigationCount(s.effects) + 1
      && t.effects[|t.effects| - 1] == Navigate(Bills)
      && ErrorLog(t.effects) == ErrorLog(s.effects)
      && t.fileName == s.fileName && t.fileUrl == s.fileUrl && t.billId == s.billId
      && t.selected == s.selected
    ensures hasStore ==>
      SubmitPayload(s, p, hasStore).effects == s.effects + [StoreCreate(p), Navigate(Bills)]
      && SubmitPayload(s, p, hasStore).pending == s.pending + 1
    ensures !hasStore ==>
      SubmitPayload(s, p, hasStore).effects == s.effects + [Navigate(Bills)]
      && SubmitPayload(s, p, hasStore).pending == s.pending
  {
    if hasStore {
      assert s.effects + [StoreCreate(p)] + [Navigate(Bills)] == s.effects + [StoreCreate(p), Navigate(Bills)];
      LogAppend(s.effects, [StoreCreate(p), Navigate(Bills)]);
      assert [StoreCreate(p), Navigate(Bills)][..1] == [StoreCreate(p)];
    } else {
      LogAppend(s.effects, [Navigate(Bills)]);
    }
  }

  /** A resolved `create` records the key and the file URL and navigates once
      more; a rejected one logs its error exactly once and changes nothing
      else. Either way the request stops being pending. */
  lemma SettleOutcome(s: Snapshot, response: CreateResponse)
    requires s.pending > 0
    ensures Settle(s, response).pending == s.pending - 1
    ensures Settle(s, response).fileName == s.fileName && Settle(s, response).selected == s.selected
    ensures response.Resolved? ==>
      var t := Settle(s, response);
      && t.billId == Some(response.key) && t.fileUrl == Some(response.fileUrl)
      && NavigationCount(t.effects) == NavigationCount(s.effects) + 1
      && ErrorLog(t.effects) == ErrorLog(s.effects)
    ensures response.Failed? ==>
      var t := Settle(s, response);
      && t.billId == s.billId && t.fileUrl == s.fileUrl
      && NavigationCount(t.effects) == NavigationCount(s.effects)
      && ErrorLog(t.effects) == ErrorLog(s.effects) + [response.error]
  {
    match response
    case Resolved(_, _) =>
      LogAppend(s.effects, [Navigate(Bills)]);
    case Failed(e) =>
      LogAppend(s.effects, [ConsoleError(e)]);
      assert ErrorLog([ConsoleError(e)]) == [e];
  }

  // ---------------------------------------------------------------------
  // An invariant of every controller
  // ---------------------------------------------------------------------

  /** `billId` and `fileUrl` are set together; no more promises are pending
      than requests were sent; and without a store nothing is ever sent,
      nothing is pending and no bill id is recorded. */
  ghost predicate Invariant(s: Snapshot, hasStore: bool) {
    && (s.billId.Some? <==> s.fileUrl.Some?)
    && s.pending <= StoreRequestCount(s.effects)
    && (!hasStore ==> s.pending == 0 && StoreRequestCount(s.effects) == 0 && s.billId.None?)
  }

  lemma InitialInvariant(selected: seq<File>, hasStore: bool)
    ensures Initial(selected).fileName.None? && Initial(selected).fileUrl.None?
    ensures Initial(selected).billId.None? && Initial(selected).effects == []
    ensures Invariant(Initial(selected), hasStore)
  {
  }

  lemma ChangeFileKeepsInvariant(s: Snapshot, hasStore: bool)
    requires Invariant(s, hasStore)
    ensures Invariant(ChangeFile(s), hasStore)
  {
    if s.selected != [] && !HasValidExtension(s.selected[0].name) {
      LogAppend(s.effects, [Alert(InvalidFileMessage)]);
    }
  }

  lemma DispatchKeepsInvariant(s: Snapshot, data: seq<Entry>, hasStore: bool)
    requires Invariant(s, hasStore)
    ensures Invariant(DispatchCreate(s, data, hasStore), hasStore)
  {
    if hasStore {
      LogAppend(s.effects, [StoreCreate(data)]);
    }
  }

  lemma SubmitKeepsInvariant(s: Snapshot, hasStore: bool, f: FormFields, email: Option<string>)
    requires Invariant(s, hasStore)
    ensures Invariant(Submit(s, f, email, hasStore), hasStore)
  {
    PayloadKeepsInvariant(s, hasStore, Payload(s.selected, email, f));
  }

  lemma PayloadKeepsInvariant(s: Snapshot, hasStore: bool, p: seq<Entry>)
    requires Invariant(s, hasStore)
    ensures Invariant(SubmitPayload(s, p, hasStore), hasStore)
  {
    PayloadNavigatesOnce(s, p, hasStore);
    if hasStore {
      LogAppend(s.effects, [StoreCreate(p), Navigate(Bills)]);
      assert [StoreCreate(p), Navigate(Bills)][..1] == [StoreCreate(p)];
    } else {
      LogAppend(s.effects, [Navigate(Bills)]);
    }
  }

  lemma SettleKeepsInvariant(s: Snapshot, hasStore: bool, response: CreateResponse)
    requires Invariant(s, hasStore) && s.pending > 0
    ensures Invariant(Settle(s, response), hasStore)
  {
    match response
    case Resolved(_, _) =>
      LogAppend(s.effects, [Navigate(Bills)]);
    case Failed(e) =>
      LogAppend(s.effects, [ConsoleError(e)]);
  }

  // ---------------------------------------------------------------------
  // The controller
  // ---------------------------------------------------------------------

  /** The `new FormData()` and ten `append` calls of the submit handler. */
  method NewPayload(file: FormValue, email: FormValue, fields: FormFields, amount: string, pct: string)
    returns (bill: FormData)
    ensures fresh(bill)
    ensures bill.entries == AppendAll(file, email, fields, amount, pct)
  {
    bill := new FormData();
    bill.Append("file", file);
    bill.Append("email", email);
    bill.Append("type", Text(fields.expenseType));
    bill.Append("name", Text(fields.expenseName));
    bill.Append("amount", Text(amount));
    bill.Append("date", Text(fields.date));
    bill.Append("vat", Text(fields.vat));
    bill.Append("pct", Text(pct));
    bill.Append("commentary", Text(fields.commentary));
    bill.Append("status", Text(PendingStatus));
  }

  class NewBill {
    /** The form's `input[data-testid="file"]`. */
    const fileInput: FileInput
    /** Whether a store was passed to the constructor. */
    const hasStore: bool
    var fileName: Option<string>
    var fileUrl: Option<string>
    var billId: Option<string>
    /** The alerts, store calls, navigations and console errors so far. */
    var effects: seq<Effect>
    /** `create` calls whose promise has not settled. */
    var pending: nat

    ghost function State(): Snapshot
      reads this, fileInput
    {
      Snapshot(fileName, fileUrl, billId, fileInput.files, effects, pending)
    }

    ghost predicate Valid()
      reads this, fileInput
    {
      Invariant(State(), hasStore)
    }

    constructor (fileInput: FileInput, hasStore: bool)
      ensures this.fileInput == fileInput && this.hasStore == hasStore
      ensures fileName == None && fileUrl == None && billId == None
      ensures State() == Initial(fileInput.files)
      ensures Valid()
    {
      this.fileInput := fileInput;
      this.hasStore := hasStore;
      fileUrl := None;
      fileName := None;
      billId := None;
      effects := [];
      pending := 0;
    }

    method HandleChangeFile() returns (check: FileCheck)
      requires Valid()
      modifies this, fileInput
      ensures check == CheckFile(old(fileInput.files))
      ensures State() == ChangeFile(old(State()))
      ensures Valid()
    {
      ghost var before := State();
      if fileInput.files == [] {
        check := NoFile;
      } else {
        fileName := Some(fileInput.files[0].name);
        var name := fileName.value;
        var fileExtension := ToLowerCase(Slice(name, LastIndexOf(name, '.')));
        if fileExtension !in ValidExtensions {
          effects := effects + [Alert(InvalidFileMessage)];
          fileInput.ClearValue();
          check := FileRefused;
        } else {
          check := FileAccepted;
        }
      }
      ChangeFileKeepsInvariant(before, hasStore);
    }

    method HandleSubmit(fields: FormFields, email: Option<string>)
      requires Valid()
      modifies this
      ensures State() == Submit(old(State()), fields, email, hasStore)
      ensures Valid()
    {
      SubmitKeepsInvariant(State(), hasStore, fields, email);
      var file := if fileInput.files == [] then Text("undefined") else Blob(fileInput.files[0]);
      var amount := NumberToString(ParseInt(fields.amount));
      var pct := NumberToString(Some(PctOrDefault(fields.pct)));

      var bill := NewPayload(file, EmailValue(email), fields, amount, pct);
      assert bill.entries == Payload(fileInput.files, email, fields);

      var _ := CreateBill(bill);
      effects := effects + [Navigate(Bills)];
    }

    method CreateBill(bill: FormData) returns (dispatched: bool)
      requires Valid()
      modifies this
      ensures dispatched == hasStore
      ensures State() == DispatchCreate(old(State()), bill.entries, hasStore)
      ensures Valid()
    {
      DispatchKeepsInvariant(State(), bill.entries, hasStore);
      dispatched := hasStore;
      if hasStore {
        effects := effects + [StoreCreate(bill.entries)];
        pending := pending + 1;
      }
    }

    /** Runs when the promise of an earlier `create` call settles. */
    method SettleCreate(response: CreateResponse)
      requires Valid() && pending > 0
      modifies this
      ensures State() == Settle(old(State()), response)
      ensures Valid()
    {
      SettleKeepsInvariant(State(), hasStore, response);
      pending := pending - 1;
      match response {
        case Resolved(url, key) =>
          billId := Some(key);
          fileUrl := Some(url);
          effects := effects + [Navigate(Bills)];
        case Failed(error) =>
          effects := effects + [ConsoleError(error)];
      }
    }
  }

  // ---------------------------------------------------------------------
  // Clients
  // ---------------------------------------------------------------------

  /** An employee uploads a receipt with a valid extension: it is accepted,
      its name recorded, and nothing is announced. */
  method UploadValid() returns (check: FileCheck, fileName: Option<string>, effects: seq<Effect>)
    ensures check == FileAccepted && fileName == Some("test.png") && effects == []
  {
    var input := new FileInput([]);
    var newBill := new NewBill(input, false);
    input.Choose([File("test.png")]);
    check := newBill.HandleChangeFile();
    AcceptedLowerCase();
    assert input.files == [File("test.png")];
    fileName, effects := newBill.fileName, newBill.effects;
  }

  /** An employee uploads a text file: it is announced, the input is
      cleared, and its name is still recorded. */
  method UploadInvalid() returns (check: FileCheck, value: string, fileName: Option<string>, effects: seq<Effect>)
    ensures check == FileRefused && value == ""
    ensures fileName == Some("example.txt") && effects == [Alert(InvalidFileMessage)]
  {
    var input := new FileInput([]);
    var newBill := new NewBill(input, false);
    input.Choose([File("example.txt")]);
    check := newBill.HandleChangeFile();
    RefusedExamples();
    value := input.Value();
    fileName, effects := newBill.fileName, newBill.effects;
  }

  /** Without a store, a submit only navigates to the bill list. */
  method SubmitWithoutStore(fields: FormFields, email: Option<string>)
    returns (effects: seq<Effect>, pending: nat, billId: Option<string>)
    ensures effects == [Navigate(Bills)] && pending == 0 && billId == None
  {
    var input := new FileInput([File("test.png")]);
    var newBill := new NewBill(input, false);
    newBill.HandleSubmit(fields, email);
    effects, pending, billId := newBill.effects, newBill.pending, newBill.billId;
  }

  /** With a store, a submit sends the payload and navigates; a successful
      creation records the key and URL and navigates again. */
  method SubmitWithStoreResolved(fields: FormFields, email: Option<string>)
    returns (effects: seq<Effect>, billId: Option<string>, fileUrl: Option<string>)
    ensures |effects| == 3 && effects[0].StoreCreate? && effects[1] == effects[2] == Navigate(Bills)
    ensures billId == Some("1234") && fileUrl == Some("http://test.com")
  {
    var input := new FileInput([File("receipt.jpg")]);
    var newBill := new NewBill(input, true);
    newBill.HandleSubmit(fields, email);
    newBill.SettleCreate(Resolved("http://test.com", "1234"));
    effects, billId, fileUrl := newBill.effects, newBill.billId, newBill.fileUrl;
  }

  /** A failed creation logs its error after the navigation and records
      neither a key nor a URL. */
  method SubmitWithStoreRejected(fields: FormFields, email: Option<string>)
    returns (effects: seq<Effect>, billId: Option<string>, fileUrl: Option<string>)
    ensures |effects| == 3 && effects[0].StoreCreate? && effects[1] == Navigate(Bills)
    ensures effects[2] == ConsoleError("Erreur 404")
    ensures billId == None && fileUrl == None
  {
    var input := new FileInput([File("receipt.jpg")]);
    var newBill := new NewBill(input, true);
    newBill.HandleSubmit(fields, email);
    newBill.SettleCreate(Failed("Erreur 404"));
    effects, billId, fileUrl := newBill.effects, newBill.billId, newBill.fileUrl;
  }
}
