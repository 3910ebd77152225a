/**
 The registration request handler and process start-up, tying the in-memory
 registry to the spreadsheet store.
 */
module App {
  import opened Registry
  import opened Sink

  /** The submitted form fields, by field name. */
  type Form = map<string, string>

  /** What the handler answers: a redirect to the dashboard, or an error page. */
  datatype Response = Redirect(endpoint: string) | BadRequest(field: string) | ServerError(cause: StorageError)

  /** The first of the fields name, email, dept that the form lacks, in the order they are read. */
  function MissingField(form: Form): (m: Option<string>)
    ensures m.None? <==> "name" in form && "email" in form && "dept" in form
    ensures m.Some? ==> m.value !in form && m.value in ["name", "email", "dept"]
  {
    if "name" !in form then Some("name")
    else if "email" !in form then Some("email")
    else if "dept" !in form then Some("dept")
    else None
  }

  /** The row a complete form is saved as. */
  function FormRow(form: Form): (row: Row)
    requires MissingField(form).None?
    ensures |row| == |Header|
    ensures row[0] == form["name"] && row[1] == form["email"] && row[2] == form["dept"] && row[3] == InProgress
  {
    [form["name"], form["email"], form["dept"], InProgress]
  }

  /**
   POST /registration. A form missing a field is refused before anything
   changes. Otherwise the record is appended in memory first and the row
   saved second, so a failed save leaves the in-memory record in place.
   */
  method RegistrationPost(list: InternList, store: Store, form: Form) returns (resp: Response)
    requires list.Valid()
    modifies list, store
    ensures list.Valid()
    ensures MissingField(form).Some? ==>
      resp == BadRequest(MissingField(form).value) &&
      list.interns == old(list.interns) && store.file == old(store.file)
    ensures MissingField(form).None? ==>
      list.interns == old(list.interns) + [Record(form["name"], form["dept"], InProgress)]
    ensures MissingField(form).None? ==>
      var saved := SaveRow(old(store.file), FormRow(form));
      (saved.Ok? ==> resp == Redirect("home") && store.file == Some(saved.value)) &&
      (saved.Err? ==> resp == ServerError(saved.error) && store.file == old(store.file))
    ensures MissingField(form).None? && old(Ready(store.file)) ==>
      resp == Redirect("home") && Ready(store.file)
  {
    var missing := MissingField(form);
    if missing.Some? {
      return BadRequest(missing.value);
    }
    var name, email, dept := form["name"], form["email"], form["dept"];
    list.Register(name, dept);
    var saved := store.AppendRow(name, email, dept, InProgress);
    if saved.Ok? {
      resp := Redirect("home");
    } else {
      resp := ServerError(saved.error);
    }
  }

  /** Start-up as the application does it: the seed list is built and the store is left as found. */
  method StartAsWritten(onDisk: Option<Book>) returns (list: InternList, store: Store)
    ensures fresh(list) && fresh(store)
    ensures list.Valid() && list.interns == Seed && store.file == onDisk
  {
    list := new InternList();
    store := new Store(onDisk);
  }

  /** Start-up with the store initialised, as the unused initialisation routine intends. */
  method StartWithInit(onDisk: Option<Book>) returns (list: InternList, store: Store)
    ensures fresh(list) && fresh(store)
    ensures list.Valid() && list.interns == Seed && store.file == Initialized(onDisk)
    ensures onDisk.None? ==> Ready(store.file)
  {
    list := new InternList();
    store := new Store(onDisk);
    store.EnsureInitialized();
  }

  /**
   With no spreadsheet on disk, the first registration after start-up as
   written is answered with an error, yet the dashboard already counts it.
   */
  method FirstRegistrationAsWritten(form: Form) returns (resp: Response, shown: Summary)
    requires MissingField(form).None?
    ensures resp == ServerError(StorageNotFound)
    ensures shown == Summary(4, 2, 2)
  {
    var list, store := StartAsWritten(None);
    resp := RegistrationPost(list, store, form);
    SeedThenRegister(form["name"], form["dept"]);
    shown := Summarize(list.interns);
  }

  /**
   With the store initialised at start-up, the first registration succeeds,
   the dashboard shows (4, 2, 2) and the file holds the header and exactly
   that registration's row.
   */
  method FirstRegistrationWithInit(form: Form) returns (resp: Response, shown: Summary, rows: seq<Row>)
    requires MissingField(form).None?
    ensures resp == Redirect("home")
    ensures shown == Summary(4, 2, 2)
    ensures rows == [Header, [form["name"], form["email"], form["dept"], "In Progress"]]
  {
    var list, store := StartWithInit(None);
    resp := RegistrationPost(list, store, form);
    SeedThenRegister(form["name"], form["dept"]);
    shown := Summarize(list.interns);
    rows := store.file.value[SheetTitle];
  }
}
