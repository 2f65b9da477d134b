/**
 * The REST endpoints of views.py: registration, file upload,
 * and the chat history window with its day labels.
 */
module Views {
  import opened Wire
  import opened TimeFormat
  import Store

  const Ok: int := 200
  const Created: int := 201
  const BadRequest: int := 400
  const ServerError: int := 500

  datatype Reply = Reply(status: int, body: map<string, Value>)

  /** Python truthiness of an optional request string: present and non-empty. */
  predicate Given(v: Option<string>) {
    v.Some? && v.value != ""
  }

  /**
   * `register_view`. The existence check compares the raw name, while
   * `create_user` stores `normalize` of it (Django's username
   * normalisation); a raw name that is new but normalises to a taken one
   * breaks the unique constraint, which surfaces as a server error and
   * stores nothing.
   */
  method Register(db: Store.Database, username: Option<string>, password: Option<string>, normalize: string -> string)
    returns (reply: Reply)
    modifies db`accounts
    ensures !Given(username) || !Given(password) ==>
      reply == Reply(BadRequest, map["error" := Str("Username and password required")]) && db.accounts == old(db.accounts)
    ensures Given(username) && Given(password) && username.value in old(db.accounts) ==>
      reply == Reply(BadRequest, map["error" := Str("Username already exists")]) && db.accounts == old(db.accounts)
    ensures Given(username) && Given(password) && username.value !in old(db.accounts)
            && normalize(username.value) in old(db.accounts) ==>
      reply.status == ServerError && db.accounts == old(db.accounts)
    ensures Given(username) && Given(password) && username.value !in old(db.accounts)
            && normalize(username.value) !in old(db.accounts) ==>
      reply == Reply(Created, map["message" := Str("User created successfully")])
      && db.accounts == old(db.accounts)[normalize(username.value) := password.value]
      && |db.accounts.Keys| == |old(db.accounts).Keys| + 1
  {
    if !Given(username) || !Given(password) {
      return Reply(BadRequest, map["error" := Str("Username and password required")]);
    }
    if username.value in db.accounts {
      return Reply(BadRequest, map["error" := Str("Username already exists")]);
    }
    var stored := normalize(username.value);
    if stored in db.accounts {
      return Reply(ServerError, map[]);
    }
    db.CreateUser(stored, password.value);
    reply := Reply(Created, map["message" := Str("User created successfully")]);
  }

  /**
   * `upload_file_view`. `parts` maps the multipart field names to the
   * uploaded files' names. The file is saved under `uploads/<name>`, or
   * under the first free alternate in `tries` when that name is taken, and
   * the reply carries `url` of the name actually used.
   */
  method UploadFile(storage: Store.Storage, parts: map<string, string>, tries: seq<string>, url: string -> string)
    returns (reply: Reply)
    requires "file" in parts ==> Store.HasFree(["uploads/" + parts["file"]] + tries, storage.files)
    modifies storage`files
    ensures reply.status == BadRequest <==> "file" !in parts
    ensures reply.status == Created <==> "file" in parts
    ensures "file" !in parts ==>
      reply.body == map["error" := Str("No file provided")] && storage.files == old(storage.files)
    ensures "file" in parts ==>
      var saved := Store.FirstFree(["uploads/" + parts["file"]] + tries, old(storage.files));
      && reply.body == map["file" := Str(url(saved))]
      && saved !in old(storage.files)
      && storage.files == old(storage.files) + {saved}
  {
    if "file" !in parts {
      return Reply(BadRequest, map["error" := Str("No file provided")]);
    }
    var saved := storage.Save("uploads/" + parts["file"], tries);
    reply := Reply(Created, map["file" := Str(url(saved))]);
  }

  /** Uploading the same file name twice stores the second copy under a new name: neither overwrites the other. */
  lemma RepeatUploadRenamed(name: string, tries1: seq<string>, tries2: seq<string>, files: set<string>)
    requires Store.HasFree(["uploads/" + name] + tries1, files)
    requires Store.HasFree(["uploads/" + name] + tries2, files + {Store.FirstFree(["uploads/" + name] + tries1, files)})
    ensures var first := Store.FirstFree(["uploads/" + name] + tries1, files);
      var second := Store.FirstFree(["uploads/" + name] + tries2, files + {first});
      second != first && second != "uploads/" + name
  {
    var names := ["uploads/" + name] + tries1;
    if names[0] !in files {
      assert Store.FirstFree(names, files) == "uploads/" + name;
    }
  }

  // ---- history ----

  /** A history timestamp: `Today, …` or `Yesterday, …` as text, or the full date form as its parts. */
  datatype Stamp = Text(text: string) | FullDate(day: int, time: int)

  /** The label of a message stored at `at` when the local date is `today`. */
  function Label(at: int, today: int): (s: Stamp)
    ensures DayOf(at) == today <==> s == Text(Labelled("Today", TimeOfDay(at)))
    ensures DayOf(at) == today - 1 <==> s == Text(Labelled("Yesterday", TimeOfDay(at)))
    ensures s.FullDate? <==> DayOf(at) != today && DayOf(at) != today - 1
    ensures s.FullDate? ==> s == FullDate(DayOf(at), TimeOfDay(at))
  {
    var time := TimeOfDay(at);
    if DayOf(at) == today then Text(Labelled("Today", time))
    else if DayOf(at) == today - 1 then Text(Labelled("Yesterday", time))
    else FullDate(DayOf(at), time)
  }

  datatype Entry = Entry(username: string, message: Value, msgType: Value, mediaUrl: Value, timestamp: Stamp)

  /** One reply entry: the row's sender, text, type and address, with its day label in place of its instant. */
  function EntryOf(m: Store.Row, today: int): (e: Entry)
    ensures e.username == m.username && e.message == m.message
    ensures e.msgType == m.msgType && e.mediaUrl == m.mediaUrl
    ensures e.timestamp.Text? <==> DayOf(m.at) == today || DayOf(m.at) == today - 1
  {
    Entry(m.username, m.message, m.msgType, m.mediaUrl, Label(m.at, today))
  }

  const Window: nat := 50

  predicate NewestFirst(s: seq<Store.Row>) {
    forall i, j :: 0 <= i < j < |s| ==> s[i].at >= s[j].at
  }

  predicate OldestFirst(s: seq<Store.Row>) {
    forall i, j :: 0 <= i < j < |s| ==> s[i].at <= s[j].at
  }

  lemma ConsNewestFirst(x: Store.Row, rest: seq<Store.Row>)
    requires NewestFirst(rest) && forall y :: y in rest ==> y.at <= x.at
    ensures NewestFirst([x] + rest)
  {
    var r := [x] + rest;
    forall i, j | 0 <= i < j < |r| ensures r[i].at >= r[j].at {
      assert r[j] == rest[j - 1];
      if i > 0 {
        assert r[i] == rest[i - 1];
      }
    }
  }

  lemma HeadBounds(s: seq<Store.Row>, m: Store.Row, rest: seq<Store.Row>)
    requires NewestFirst(s) && s != [] && m.at <= s[0].at
    requires multiset(rest) == multiset(s[1..]) + multiset{m}
    ensures forall x :: x in rest ==> x.at <= s[0].at
  {
    forall x | x in rest ensures x.at <= s[0].at {
      assert x in multiset(rest);
      if x != m {
        assert x in multiset(s[1..]);
        var j :| 0 <= j < |s[1..]| && s[1..][j] == x;
        assert s[j + 1] == x;
      }
    }
  }

  function Insert(m: Store.Row, s: seq<Store.Row>): (r: seq<Store.Row>)
    requires NewestFirst(s)
    ensures NewestFirst(r)
    ensures multiset(r) == multiset(s) + multiset{m} && |r| == |s| + 1
  {
    if s == [] || m.at >= s[0].at then
      ConsNewestFirst(m, s);
      [m] + s
    else
      var rest := Insert(m, s[1..]);
      assert s == [s[0]] + s[1..];
      HeadBounds(s, m, rest);
      ConsNewestFirst(s[0], rest);
      [s[0]] + rest
  }

  /** `order_by('-timestamp')`: the rows, newest first. */
  function ByTimeDesc(rows: seq<Store.Row>): (s: seq<Store.Row>)
    ensures NewestFirst(s)
    ensures multiset(s) == multiset(rows) && |s| == |rows|
  {
    if rows == [] then []
    else
      assert rows == [rows[0]] + rows[1..];
      Insert(rows[0], ByTimeDesc(rows[1..]))
  }

  function Min(a: int, b: int): int {
    if a <= b then a else b
  }

  /** `[:50]`: the first fifty rows newest first. */
  function Recent(rows: seq<Store.Row>): (w: seq<Store.Row>)
    ensures |w| == Min(Window, |rows|)
  {
    var s := ByTimeDesc(rows);
    s[..Min(Window, |s|)]
  }

  /** Of a newest-first sequence, no row after position `k` is later than a row before it. */
  lemma PrefixIsNewest(s: seq<Store.Row>, k: nat)
    requires NewestFirst(s) && k <= |s|
    ensures NewestFirst(s[..k])
    ensures multiset(s) - multiset(s[..k]) == multiset(s[k..])
    ensures forall m, n :: m in s[..k] && n in multiset(s[k..]) ==> n.at <= m.at
  {
    assert s == s[..k] + s[k..];
    forall m, n | m in s[..k] && n in multiset(s[k..]) ensures n.at <= m.at {
      var i :| 0 <= i < k && s[..k][i] == m;
      assert n in s[k..];
      var j :| 0 <= j < |s| - k && s[k..][j] == n;
      assert s[i] == m && s[k + j] == n;
    }
  }

  /** The window holds the newest rows, newest first: no row left out is later than one kept. */
  lemma RecentIsNewest(rows: seq<Store.Row>)
    ensures var w := Recent(rows);
      && NewestFirst(w)
      && multiset(w) <= multiset(rows)
      && forall m, n :: m in w && n in multiset(rows) - multiset(w) ==> n.at <= m.at
  {
    var s := ByTimeDesc(rows);
    PrefixIsNewest(s, Min(Window, |s|));
  }

  function Reverse(s: seq<Store.Row>): (r: seq<Store.Row>)
    ensures |r| == |s|
    ensures forall i :: 0 <= i < |s| ==> r[i] == s[|s| - 1 - i]
    ensures multiset(r) == multiset(s)
  {
    if s == [] then []
    else
      assert s == [s[0]] + s[1..];
      Reverse(s[1..]) + [s[0]]
  }

  /** The history reply: the recent window oldest first, each row labelled against the local date of `now`. */
  function History(stored: seq<Store.Row>, now: int): (data: seq<Entry>)
    ensures |data| == Min(Window, |stored|)
  {
    var chrono := Reverse(Recent(stored));
    seq(|chrono|, i requires 0 <= i < |chrono| => EntryOf(chrono[i], DayOf(now)))
  }

  /** `get_chat_history`: walks the newest-first window backwards, appending one entry per row. */
  method GetChatHistory(stored: seq<Store.Row>, now: int) returns (data: seq<Entry>)
    ensures data == History(stored, now)
  {
    var messages := Recent(stored);
    var today := DayOf(now);
    data := [];
    var i := |messages|;
    while i > 0
      invariant 0 <= i <= |messages|
      invariant |data| == |messages| - i
      invariant forall j :: 0 <= j < |data| ==> data[j] == EntryOf(messages[|messages| - 1 - j], today)
    {
      i := i - 1;
      var m := messages[i];
      data := data + [EntryOf(m, today)];
    }
  }

  lemma ReverseOldestFirst(w: seq<Store.Row>)
    requires NewestFirst(w)
    ensures OldestFirst(Reverse(w))
  {
    var chrono := Reverse(w);
    forall i, j | 0 <= i < j < |chrono| ensures chrono[i].at <= chrono[j].at {
      assert chrono[i] == w[|w| - 1 - i] && chrono[j] == w[|w| - 1 - j];
    }
  }

  /**
   * The history is the fifty most recent messages (all of them when there
   * are fewer), oldest first.
   */
  lemma HistoryWindow(stored: seq<Store.Row>)
    ensures var chrono := Reverse(Recent(stored));
      && |chrono| <= Window && (|stored| <= Window ==> |chrono| == |stored|)
      && OldestFirst(chrono)
      && multiset(chrono) <= multiset(stored)
      && (forall m, n :: m in chrono && n in multiset(stored) - multiset(chrono) ==> n.at <= m.at)
  {
    var w := Recent(stored);
    var chrono := Reverse(w);
    RecentIsNewest(stored);
    ReverseOldestFirst(w);
    forall m | m in chrono ensures m in w {
      assert m in multiset(chrono);
    }
  }

  /** Each history entry keeps its row's sender, text, type and address, and carries its day label. */
  lemma HistoryEntries(stored: seq<Store.Row>, now: int)
    ensures var chrono, data := Reverse(Recent(stored)), History(stored, now);
      && |data| == |chrono|
      && forall i :: 0 <= i < |data| ==>
           && data[i].username == chrono[i].username && data[i].message == chrono[i].message
           && data[i].msgType == chrono[i].msgType && data[i].mediaUrl == chrono[i].mediaUrl
           && data[i].timestamp == Label(chrono[i].at, DayOf(now))
  {
  }
}
