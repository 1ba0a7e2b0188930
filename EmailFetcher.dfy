/** The unread-mail source: snippet extraction from an already decoded message,
    and the IMAP session that lists, fetches and optionally marks unread mail. */
module EmailFetcher {
  import opened Wrappers
  import opened Text

  // ---------------------------------------------------------------------------
  // Messages and snippets
  // ---------------------------------------------------------------------------

  /** One MIME part as msg.walk() visits it, already decoded to text.
      `contentType` is what get_content_type() reports; `disposition` is the
      Content-Disposition header, None when the header is absent. */
  datatype Part = Part(contentType: string, disposition: Option<string>, text: string)

  /** A parsed message. A single-part message carries its decoded payload, None
      when the payload is neither bytes nor text; a multipart message carries its
      parts in walk order. */
  datatype Message = SinglePart(payload: Option<string>) | Multipart(parts: seq<Part>)

  const SNIPPET_LENGTH: nat := 100

  /** A text/plain part that is not an attachment: its Content-Disposition is
      absent or empty. */
  predicate IsBodyPart(p: Part) {
    p.contentType == "text/plain" && (p.disposition == None || p.disposition == Some(""))
  }

  /** The position of the first body part, the part the `break` loop stops at. */
  function FindBodyPart(parts: seq<Part>): (r: Option<nat>)
    ensures r.Some? ==> r.value < |parts| && IsBodyPart(parts[r.value])
    ensures r.Some? ==> forall j :: 0 <= j < r.value ==> !IsBodyPart(parts[j])
    ensures r.None? ==> forall j :: 0 <= j < |parts| ==> !IsBodyPart(parts[j])
  {
    if parts == [] then None
    else if IsBodyPart(parts[0]) then Some(0)
    else
      match FindBodyPart(parts[1..])
      case None => None
      case Some(i) => Some(i + 1)
  }

  /** The text the snippet is cut from. */
  function BodyText(m: Message): (t: string)
    ensures m.Multipart? ==>
      forall i :: (0 <= i < |m.parts| && IsBodyPart(m.parts[i])
        && (forall j :: 0 <= j < i ==> !IsBodyPart(m.parts[j]))) ==> t == m.parts[i].text
    ensures m.Multipart? && (forall i :: 0 <= i < |m.parts| ==> !IsBodyPart(m.parts[i])) ==> t == ""
    ensures m.SinglePart? ==> t == m.payload.GetOr("")
  {
    match m
    case SinglePart(payload) => payload.GetOr("")
    case Multipart(parts) =>
      match FindBodyPart(parts)
      case None => ""
      case Some(i) => parts[i].text
  }

  /** " ".join(text.strip().split())[:100] */
  function Snippet(text: string): (r: string)
    ensures |r| <= SNIPPET_LENGTH
    ensures r <= Collapse(text)
    ensures |r| == if |Collapse(text)| <= SNIPPET_LENGTH then |Collapse(text)| else SNIPPET_LENGTH
  {
    var c := Collapse(text);
    c[..if |c| <= SNIPPET_LENGTH then |c| else SNIPPET_LENGTH]
  }

  /** _extract_snippet */
  function ExtractSnippet(m: Message): string {
    Snippet(BodyText(m))
  }

  /** A snippet keeps the collapsed shape except at its end: it has no leading
      whitespace, its only whitespace is plain spaces and no two are adjacent. */
  lemma SnippetShape(text: string)
    ensures var r := Snippet(text);
      (r == [] || !IsSpace(r[0]))
      && (forall i :: 0 <= i < |r| && IsSpace(r[i]) ==> r[i] == ' ')
      && (forall i :: 0 <= i < |r| - 1 ==> !IsSpace(r[i]) || !IsSpace(r[i + 1]))
  {
    var c := Collapse(text);
    var r := Snippet(text);
    forall i | 0 <= i < |r| ensures r[i] == c[i] { }
  }

  /** ...but it may end in a space: the cut can fall right after a space. */
  lemma SnippetMayEndInSpace()
    ensures var r := Snippet(Join([Repeat('a', 99), "b"], " "));
      |r| == 100 && r[99] == ' '
  {
    var w := Repeat('a', 99);
    assert IsWord(w) && IsWord("b");
    CollapseOfJoin([w, "b"]);
    assert Join([w, "b"], " ") == w + " " + "b";
  }

  /** A body of 120 letters 'a' gives exactly the first 100 of them. */
  lemma SnippetOfLongWord()
    ensures Snippet(Repeat('a', 120)) == Repeat('a', 100)
  {
    var w := Repeat('a', 120);
    assert IsWord(w);
    CollapseOfJoin([w]);
  }

  /** A body that is already single-spaced and at most 100 characters long is
      its own snippet. */
  lemma SnippetOfCollapsed(text: string)
    requires Collapsed(text) && |text| <= SNIPPET_LENGTH
    ensures Snippet(text) == text
  {
    CollapseOfCollapsed(text);
  }

  /** A multipart message without a usable text part has an empty snippet. */
  lemma NoBodyPartNoSnippet(parts: seq<Part>)
    requires forall i :: 0 <= i < |parts| ==> !IsBodyPart(parts[i])
    ensures ExtractSnippet(Multipart(parts)) == ""
  {
    assert Words(Strip("")) == [];
  }

  function Repeat(c: char, n: nat): (s: string)
    ensures |s| == n && forall i :: 0 <= i < n ==> s[i] == c
  {
    seq(n, _ => c)
  }

  // ---------------------------------------------------------------------------
  // The IMAP session
  // ---------------------------------------------------------------------------

  /** (subject, snippet) */
  datatype EmailItem = EmailItem(subject: string, snippet: string)

  /** What the server answers to fetch(id): a status and, on "OK", the message
      with its subject already decoded; or the call raises. */
  datatype FetchReply = FetchReply(status: string, subject: string, message: Message) | FetchRaised

  /** What the server answers to search: a status and the matching ids. */
  datatype SearchReply = SearchReply(status: string, ids: seq<string>)

  /** A scripted IMAP server: whether login raises, whether search raises (as
      imaplib's search does when a select answered NO and left the connection
      unselected) and otherwise its reply, the reply to each fetch, and whether
      close and logout raise. */
  datatype Server = Server(loginRaises: bool, searchRaises: bool, search: SearchReply,
                           replies: string -> FetchReply, closeRaises: bool, logoutRaises: bool)

  /** What happens on the session, plus the ghost moment `Appended(id)` at which an
      entry for `id` joins the result list. `Search(true)` is the search with the
      X-GM-RAW "category:primary" modifier. */
  datatype Event =
    | Login | Select(mailbox: string) | Search(primaryOnly: bool)
    | Fetch(id: string) | Appended(id: string) | Store(id: string)
    | Close | Logout

  datatype ImapError = LoginFailed | SearchFailed | FetchFailed(id: string) | CloseFailed | LogoutFailed

  /** How fetch_unread ends: it returns a list, or an exception escapes. */
  datatype Outcome = Returned(items: seq<EmailItem>) | Raised(error: ImapError)

  /** After the loop has run over some ids: how many of them it fetched, the
      events, and the id whose fetch raised. */
  datatype ScanState = ScanState(count: nat, events: seq<Event>, raisedAt: Option<string>)

  /** The entry a fetch reply contributes to the result list: one for status
      "OK", none otherwise. */
  function EntryOf(reply: FetchReply): seq<EmailItem> {
    match reply
    case FetchReply(status, subject, m) =>
      if status == "OK" then [EmailItem(subject, ExtractSnippet(m))] else []
    case FetchRaised => []
  }

  /** The events of one turn of the loop: the fetch, then on "OK" the append
      and, with mark_as_read, the store. */
  function StepEvents(id: string, reply: FetchReply, markAsRead: bool): seq<Event> {
    [Fetch(id)]
    + if reply.FetchReply? && reply.status == "OK" then
        [Appended(id)] + (if markAsRead then [Store(id)] else [])
      else []
  }

  predicate LoopEvent(e: Event) {
    e.Fetch? || e.Appended? || e.Store?
  }

  /** The loop over `ids`; it stops at the first fetch that raises. */
  function Scan(replies: string -> FetchReply, ids: seq<string>, markAsRead: bool): (s: ScanState)
    ensures s.count <= |ids|
    decreases |ids|
  {
    if ids == [] then ScanState(0, [], None)
    else
      var prev := Scan(replies, ids[..|ids| - 1], markAsRead);
      if prev.raisedAt.Some? then prev
      else
        var id := ids[|ids| - 1];
        var reply := replies(id);
        ScanState(prev.count + 1, prev.events + StepEvents(id, reply, markAsRead),
                  if reply.FetchRaised? then Some(id) else None)
  }

  /** The `try` block: login, select, search and the loop. */
  function Attempt(server: Server, mailbox: string, markAsRead: bool, primaryOnly: bool): SessionRun
  {
    if server.loginRaises then SessionRun(Raised(LoginFailed), [Login])
    else
      var opening := [Login, Select(mailbox), Search(primaryOnly)];
      if server.searchRaises then SessionRun(Raised(SearchFailed), opening)
      else if server.search.status != "OK" then SessionRun(Returned([]), opening)
      else
        var s := Scan(server.replies, server.search.ids, markAsRead);
        var items := OkEntries(server.replies, server.search.ids[..s.count]);
        SessionRun(if s.raisedAt.Some? then Raised(FetchFailed(s.raisedAt.value)) else Returned(items),
                   opening + s.events)
  }

  /** The whole call: the `try` block, then the `finally` blocks that close and
      then log out. An exception raised by close or logout replaces whatever the
      `try` block returned or raised. */
  function Session(server: Server, mailbox: string, markAsRead: bool, primaryOnly: bool): SessionRun
  {
    var body := Attempt(server, mailbox, markAsRead, primaryOnly);
    var outcome :=
      if server.logoutRaises then Raised(LogoutFailed)
      else if server.closeRaises then Raised(CloseFailed)
      else body.outcome;
    SessionRun(outcome, body.events + [Close, Logout])
  }

  datatype SessionRun = SessionRun(outcome: Outcome, events: seq<Event>)

  /** The loop produces only fetch, append and store events. */
  lemma {:induction false} ScanEventsInLoop(replies: string -> FetchReply, ids: seq<string>, markAsRead: bool)
    ensures forall e :: e in Scan(replies, ids, markAsRead).events ==> LoopEvent(e)
    decreases |ids|
  {
    if ids != [] {
      ScanEventsInLoop(replies, ids[..|ids| - 1], markAsRead);
    }
  }

  /** Whatever happens, the session logs in first and ends by closing and then
      logging out, once each; an exception from logout, or else from close,
      is what the caller sees; a failed login or search fetches nothing. */
  lemma SessionShape(server: Server, mailbox: string, markAsRead: bool, primaryOnly: bool)
    ensures var r := Session(server, mailbox, markAsRead, primaryOnly);
      |r.events| >= 3 && r.events[0] == Login && r.events[|r.events| - 2..] == [Close, Logout]
      && Close !in r.events[..|r.events| - 2] && Logout !in r.events[..|r.events| - 2]
    ensures var r := Session(server, mailbox, markAsRead, primaryOnly);
      (server.logoutRaises ==> r.outcome == Raised(LogoutFailed))
      && (!server.logoutRaises && server.closeRaises ==> r.outcome == Raised(CloseFailed))
    ensures var r := Session(server, mailbox, markAsRead, primaryOnly);
      server.loginRaises || server.searchRaises || server.search.status != "OK" ==>
        forall k :: 0 <= k < |r.events| ==> !r.events[k].Fetch?
    ensures var r := Session(server, mailbox, markAsRead, primaryOnly);
      !server.loginRaises && !server.closeRaises && !server.logoutRaises ==>
        (server.searchRaises ==> r.outcome == Raised(SearchFailed))
        && (!server.searchRaises && server.search.status != "OK" ==> r.outcome == Returned([]))
  {
    ScanEventsInLoop(server.replies, server.search.ids, markAsRead);
  }

  /** The model's mailbox connection: the scripted server and the trace of what
      was asked of it. */
  class ImapConnection {
    const server: Server
    ghost var trace: seq<Event>

    constructor (server: Server)
      ensures this.server == server && trace == []
    {
      this.server := server;
      trace := [];
    }

    /** login(); false when it raises. */
    method Login() returns (ok: bool)
      modifies this
      ensures ok == !server.loginRaises
      ensures trace == old(trace) + [Event.Login]
    {
      ok := !server.loginRaises;
      trace := trace + [Event.Login];
    }

    method Select(mailbox: string)
      modifies this
      ensures trace == old(trace) + [Event.Select(mailbox)]
    {
      trace := trace + [Event.Select(mailbox)];
    }

    /** search(); `ok` is false when it raises. */
    method Search(primaryOnly: bool) returns (ok: bool, reply: SearchReply)
      modifies this
      ensures ok == !server.searchRaises && reply == server.search
      ensures trace == old(trace) + [Event.Search(primaryOnly)]
    {
      ok, reply := !server.searchRaises, server.search;
      trace := trace + [Event.Search(primaryOnly)];
    }

    method Fetch(id: string) returns (reply: FetchReply)
      modifies this
      ensures reply == server.replies(id)
      ensures trace == old(trace) + [Event.Fetch(id)]
    {
      reply := server.replies(id);
      trace := trace + [Event.Fetch(id)];
    }

    /** store(id, "+FLAGS", "\\Seen") */
    method Store(id: string)
      modifies this
      ensures trace == old(trace) + [Event.Store(id)]
    {
      trace := trace + [Event.Store(id)];
    }

    /** close(); false when it raises. */
    method Close() returns (ok: bool)
      modifies this
      ensures ok == !server.closeRaises
      ensures trace == old(trace) + [Event.Close]
    {
      ok := !server.closeRaises;
      trace := trace + [Event.Close];
    }

    /** logout(); false when it raises. */
    method Logout() returns (ok: bool)
      modifies this
      ensures ok == !server.logoutRaises
      ensures trace == old(trace) + [Event.Logout]
    {
      ok := !server.logoutRaises;
      trace := trace + [Event.Logout];
    }
  }

  /** fetch_unread on an already opened connection. */
  method FetchUnread(conn: ImapConnection, mailbox: string := "INBOX", markAsRead: bool := false,
                     excludePromotions: bool := false)
    returns (result: Outcome)
    modifies conn
    ensures var run := Session(conn.server, mailbox, markAsRead, excludePromotions);
      result == run.outcome && conn.trace == old(conn.trace) + run.events
  {
    ghost var start := conn.trace;
    ghost var attempt := Attempt(conn.server, mailbox, markAsRead, excludePromotions);
    var body := TryBlock(conn, mailbox, markAsRead, excludePromotions);
    var closed := conn.Close();
    var loggedOut := conn.Logout();
    AppendAssoc(start, attempt.events, [Close, Logout]);
    result := if !loggedOut then Raised(LogoutFailed) else if !closed then Raised(CloseFailed) else body;
  }

  /** The body of the `try` statement of fetch_unread. */
  method TryBlock(conn: ImapConnection, mailbox: string, markAsRead: bool, excludePromotions: bool)
    returns (body: Outcome)
    modifies conn
    ensures var run := Attempt(conn.server, mailbox, markAsRead, excludePromotions);
      body == run.outcome && conn.trace == old(conn.trace) + run.events
  {
    ghost var start := conn.trace;
    var loggedIn := conn.Login();
    if !loggedIn {
      return Raised(LoginFailed);
    }
    conn.Select(mailbox);
    var searched, search := conn.Search(excludePromotions);
    ghost var opening := [Login, Select(mailbox), Search(excludePromotions)];
    assert conn.trace == start + opening;
    if !searched {
      return Raised(SearchFailed);
    }
    if search.status != "OK" {
      return Returned([]);
    }
    var messages, raised := FetchAll(conn, search.ids, markAsRead);
    ghost var state := Scan(conn.server.replies, search.ids, markAsRead);
    AppendAssoc(start, opening, state.events);
    body := if raised.Some? then Raised(FetchFailed(raised.value)) else Returned(messages);
  }

  /** The `for` loop over the searched ids; it ends early when a fetch raises. */
  method FetchAll(conn: ImapConnection, ids: seq<string>, markAsRead: bool)
    returns (messages: seq<EmailItem>, raised: Option<string>)
    modifies conn
    ensures var s := Scan(conn.server.replies, ids, markAsRead);
      messages == OkEntries(conn.server.replies, ids[..s.count]) && raised == s.raisedAt
      && conn.trace == old(conn.trace) + s.events
  {
    ghost var replies := conn.server.replies;
    ghost var before := conn.trace;
    messages, raised := [], None;
    ghost var state := ScanState(0, [], None);
    var i := 0;
    while i < |ids| && raised.None?
      invariant 0 <= i <= |ids|
      invariant state == Scan(replies, ids[..i], markAsRead) && state.count == i
      invariant conn.trace == before + state.events
      invariant messages == OkEntries(replies, ids[..i]) && raised == state.raisedAt
    {
      var id := ids[i];
      ghost var trace, items := conn.trace, messages;
      var isRaised;
      messages, isRaised := FetchOne(conn, messages, id, markAsRead);
      raised := if isRaised then Some(id) else None;
      LoopStep(replies, ids, i, markAsRead, before, trace, conn.trace, items, messages);
      i := i + 1;
      state := Scan(replies, ids[..i], markAsRead);
    }
    ScanStopsAtRaise(replies, ids, i, markAsRead);
    assert ids[..|ids|] == ids;
  }

  /** One turn of the loop keeps the loop's invariant. */
  lemma LoopStep(replies: string -> FetchReply, ids: seq<string>, i: nat, markAsRead: bool,
                 before: seq<Event>, trace: seq<Event>, trace': seq<Event>,
                 items: seq<EmailItem>, items': seq<EmailItem>)
    requires i < |ids| && Scan(replies, ids[..i], markAsRead).raisedAt.None?
    requires trace == before + Scan(replies, ids[..i], markAsRead).events
    requires trace' == trace + StepEvents(ids[i], replies(ids[i]), markAsRead)
    requires items == OkEntries(replies, ids[..i]) && items' == items + EntryOf(replies(ids[i]))
    ensures var next := Scan(replies, ids[..i + 1], markAsRead);
      next.count == Scan(replies, ids[..i], markAsRead).count + 1
      && next.raisedAt == (if replies(ids[i]).FetchRaised? then Some(ids[i]) else None)
      && trace' == before + next.events && items' == OkEntries(replies, ids[..i + 1])
  {
    var prev := Scan(replies, ids[..i], markAsRead);
    ScanExtends(replies, ids, i, markAsRead);
    AppendAssoc(before, prev.events, StepEvents(ids[i], replies(ids[i]), markAsRead));
    OkEntriesExtends(replies, ids, i);
  }

  /** The body of the loop for one id: fetch it; on "OK" append its entry and,
      with mark_as_read, store \Seen. */
  method FetchOne(conn: ImapConnection, messages: seq<EmailItem>, id: string, markAsRead: bool)
    returns (messages': seq<EmailItem>, raised: bool)
    modifies conn
    ensures var reply := conn.server.replies(id);
      messages' == messages + EntryOf(reply) && raised == reply.FetchRaised?
      && conn.trace == old(conn.trace) + StepEvents(id, reply, markAsRead)
  {
    ghost var start := conn.trace;
    messages', raised := messages, false;
    var reply := conn.Fetch(id);
    if reply.FetchRaised? {
      raised := true;
    } else if reply.status == "OK" {
      var snippet := ExtractSnippet(reply.message);
      messages' := messages + [EmailItem(reply.subject, snippet)];
      conn.trace := conn.trace + [Appended(id)];
      if markAsRead {
        conn.Store(id);
      }
      ghost var marked := if markAsRead then [Store(id)] else [];
      assert conn.trace == ((start + [Fetch(id)]) + [Appended(id)]) + marked;
      AppendAssoc(start + [Fetch(id)], [Appended(id)], marked);
      AppendAssoc(start, [Fetch(id)], [Appended(id)] + marked);
    }
  }

  /** The loop over one more id extends the state by that id's turn. */
  lemma ScanExtends(replies: string -> FetchReply, ids: seq<string>, i: nat, markAsRead: bool)
    requires i < |ids|
    requires Scan(replies, ids[..i], markAsRead).raisedAt.None?
    ensures var prev, id := Scan(replies, ids[..i], markAsRead), ids[i];
      Scan(replies, ids[..i + 1], markAsRead)
        == ScanState(prev.count + 1, prev.events + StepEvents(id, replies(id), markAsRead),
                     if replies(id).FetchRaised? then Some(id) else None)
  {
    assert ids[..i + 1][..i] == ids[..i];
  }

  /** Once a fetch has raised, the remaining ids change nothing. */
  lemma {:induction false} ScanStopsAtRaise(replies: string -> FetchReply, ids: seq<string>, k: nat, markAsRead: bool)
    requires k <= |ids|
    requires k < |ids| ==> Scan(replies, ids[..k], markAsRead).raisedAt.Some?
    ensures Scan(replies, ids, markAsRead) == Scan(replies, ids[..k], markAsRead)
    decreases |ids|
  {
    if k < |ids| {
      var init := ids[..|ids| - 1];
      assert init[..k] == ids[..k];
      ScanStopsAtRaise(replies, init, k, markAsRead);
    } else {
      assert ids[..k] == ids;
    }
  }

  // ---------------------------------------------------------------------------
  // What the loop promises
  // ---------------------------------------------------------------------------

  /** One entry per id whose fetch status is "OK", in id order: the reference
      definition of the result list. */
  function OkEntries(replies: string -> FetchReply, ids: seq<string>): seq<EmailItem>
  {
    if ids == [] then []
    else EntryOf(replies(ids[0])) + OkEntries(replies, ids[1..])
  }

  /** The ids of the Fetch events, in order. */
  function Fetched(events: seq<Event>): seq<string> {
    if events == [] then []
    else (if events[0].Fetch? then [events[0].id] else []) + Fetched(events[1..])
  }

  /** OkEntriesAppend in the form the loop over `ids` uses. */
  lemma OkEntriesExtends(replies: string -> FetchReply, ids: seq<string>, i: nat)
    requires i < |ids|
    ensures OkEntries(replies, ids[..i + 1]) == OkEntries(replies, ids[..i]) + EntryOf(replies(ids[i]))
  {
    assert ids[..i + 1] == ids[..i] + [ids[i]];
    OkEntriesAppend(replies, ids[..i], ids[i]);
  }

  lemma {:induction false} OkEntriesAppend(replies: string -> FetchReply, ids: seq<string>, id: string)
    ensures OkEntries(replies, ids + [id]) == OkEntries(replies, ids) + EntryOf(replies(id))
  {
    if ids != [] {
      assert (ids + [id])[1..] == ids[1..] + [id];
      OkEntriesAppend(replies, ids[1..], id);
    } else {
      assert ids + [id] == [id];
    }
  }

  lemma {:induction false} FetchedAppend(a: seq<Event>, b: seq<Event>)
    ensures Fetched(a + b) == Fetched(a) + Fetched(b)
  {
    if a != [] {
      assert (a + b)[1..] == a[1..] + b;
      FetchedAppend(a[1..], b);
    } else {
      assert a + b == b;
    }
  }

  lemma {:induction false} FetchedNone(events: seq<Event>)
    requires forall k :: 0 <= k < |events| ==> !events[k].Fetch?
    ensures Fetched(events) == []
  {
    if events != [] {
      FetchedNone(events[1..]);
    }
  }

  lemma FetchedStep(id: string, reply: FetchReply, markAsRead: bool)
    ensures Fetched(StepEvents(id, reply, markAsRead)) == [id]
  {
    var ev := StepEvents(id, reply, markAsRead);
    FetchedNone(ev[1..]);
  }

  /** When no fetch raises, the loop fetches every id once, in order. */
  lemma {:induction false} ScanWithoutRaise(replies: string -> FetchReply, ids: seq<string>, markAsRead: bool)
    requires Scan(replies, ids, markAsRead).raisedAt.None?
    ensures var s := Scan(replies, ids, markAsRead);
      s.count == |ids| && Fetched(s.events) == ids
    decreases |ids|
  {
    if ids != [] {
      var init, id := ids[..|ids| - 1], ids[|ids| - 1];
      assert ids == init + [id];
      var prev := Scan(replies, init, markAsRead);
      assert prev.raisedAt.None?;
      ScanWithoutRaise(replies, init, markAsRead);
      FetchedAppend(prev.events, StepEvents(id, replies(id), markAsRead));
      FetchedStep(id, replies(id), markAsRead);
    }
  }

  /** When a fetch raises, the loop has fetched the ids up to and including
      that one, in order, and nothing after it. */
  lemma {:induction false} ScanRaised(replies: string -> FetchReply, ids: seq<string>, markAsRead: bool)
    requires Scan(replies, ids, markAsRead).raisedAt.Some?
    ensures var s := Scan(replies, ids, markAsRead);
      0 < s.count <= |ids| && Fetched(s.events) == ids[..s.count]
      && ids[s.count - 1] == s.raisedAt.value && replies(ids[s.count - 1]) == FetchRaised
    decreases |ids|
  {
    var init := ids[..|ids| - 1];
    var prev := Scan(replies, init, markAsRead);
    if prev.raisedAt.Some? {
      assert Scan(replies, ids, markAsRead) == prev;
      ScanRaised(replies, init, markAsRead);
      assert init[..prev.count] == ids[..prev.count];
    } else {
      ScanRaisedLast(replies, ids, markAsRead);
      assert ids[..|ids|] == ids;
    }
  }

  /** ScanRaised when the last id is the one whose fetch raised. */
  lemma {:induction false} ScanRaisedLast(replies: string -> FetchReply, ids: seq<string>, markAsRead: bool)
    requires ids != [] && Scan(replies, ids[..|ids| - 1], markAsRead).raisedAt.None?
    requires Scan(replies, ids, markAsRead).raisedAt.Some?
    ensures var s := Scan(replies, ids, markAsRead);
      s.count == |ids| && Fetched(s.events) == ids
      && ids[|ids| - 1] == s.raisedAt.value && replies(ids[|ids| - 1]) == FetchRaised
  {
    var init, id := ids[..|ids| - 1], ids[|ids| - 1];
    var prev := Scan(replies, init, markAsRead);
    var step := StepEvents(id, replies(id), markAsRead);
    ScanWithoutRaise(replies, init, markAsRead);
    assert Fetched(Scan(replies, ids, markAsRead).events) == ids by {
      FetchedAppend(prev.events, step);
      FetchedStep(id, replies(id), markAsRead);
      assert ids == init + [id];
    }
  }

  /** The ordering the loop keeps: a store comes right after an append (and only
      with mark_as_read), an append right after the fetch of the same id whose
      status was "OK", and with mark_as_read every append is followed at once by
      the store of its id. */
  predicate WellOrdered(ev: seq<Event>, replies: string -> FetchReply, markAsRead: bool) {
    (forall k :: 0 <= k < |ev| && ev[k].Store? ==> markAsRead && 0 < k && ev[k - 1] == Appended(ev[k].id))
    && (forall k :: 0 <= k < |ev| && ev[k].Appended? ==>
          0 < k && ev[k - 1] == Fetch(ev[k].id)
          && replies(ev[k].id).FetchReply? && replies(ev[k].id).status == "OK")
    && (markAsRead ==> forall k :: 0 <= k < |ev| && ev[k].Appended? ==> k + 1 < |ev| && ev[k + 1] == Store(ev[k].id))
  }

  lemma WellOrderedAppend(a: seq<Event>, b: seq<Event>, replies: string -> FetchReply, markAsRead: bool)
    requires WellOrdered(a, replies, markAsRead) && WellOrdered(b, replies, markAsRead)
    requires b != [] ==> !b[0].Store? && !b[0].Appended?
    ensures WellOrdered(a + b, replies, markAsRead)
  {
    var ev := a + b;
    forall k | |a| <= k < |ev| ensures ev[k] == b[k - |a|] { }
    forall k | 0 <= k < |a| ensures ev[k] == a[k] { }
  }

  lemma WellOrderedWithoutLoop(ev: seq<Event>, replies: string -> FetchReply, markAsRead: bool)
    requires forall k :: 0 <= k < |ev| ==> !ev[k].Store? && !ev[k].Appended?
    ensures WellOrdered(ev, replies, markAsRead)
  {
  }

  lemma WellOrderedStep(id: string, replies: string -> FetchReply, markAsRead: bool)
    ensures WellOrdered(StepEvents(id, replies(id), markAsRead), replies, markAsRead)
  {
  }

  /** \Seen is stored only when mark_as_read is set, only for an id whose fetch
      succeeded, and right after that id's entry was appended. */
  lemma {:induction false} ScanWellOrdered(replies: string -> FetchReply, ids: seq<string>, markAsRead: bool)
    ensures WellOrdered(Scan(replies, ids, markAsRead).events, replies, markAsRead)
    decreases |ids|
  {
    if ids != [] {
      var init, id := ids[..|ids| - 1], ids[|ids| - 1];
      ScanWellOrdered(replies, init, markAsRead);
      var prev := Scan(replies, init, markAsRead);
      if prev.raisedAt.None? {
        WellOrderedStep(id, replies, markAsRead);
        WellOrderedAppend(prev.events, StepEvents(id, replies(id), markAsRead), replies, markAsRead);
      }
    } else {
      assert Scan(replies, ids, markAsRead).events == [];
    }
  }

  /** How the result of fetch_unread relates to the server's replies: a failed
      search gives an empty list; otherwise, unless something raised, the list is
      OkEntries of the searched ids and each id was fetched once, in search order. */
  lemma SessionResult(server: Server, mailbox: string, markAsRead: bool, primaryOnly: bool)
    ensures var r := Session(server, mailbox, markAsRead, primaryOnly);
      r.outcome.Returned? ==>
        !server.loginRaises && !server.searchRaises
        && r.outcome.items == (if server.search.status == "OK" then OkEntries(server.replies, server.search.ids) else [])
        && Fetched(r.events) == (if server.search.status == "OK" then server.search.ids else [])
  {
    var r := Session(server, mailbox, markAsRead, primaryOnly);
    if r.outcome.Returned? {
      if server.search.status == "OK" {
        SessionResultSearched(server, mailbox, markAsRead, primaryOnly);
      } else {
        var opening := [Login, Select(mailbox), Search(primaryOnly)];
        var closing := [Close, Logout];
        FetchedNone(opening);
        FetchedNone(closing);
        assert r.events == opening + closing;
        FetchedAppend(opening, closing);
      }
    }
  }

  /** SessionResult when the search succeeded. */
  lemma SessionResultSearched(server: Server, mailbox: string, markAsRead: bool, primaryOnly: bool)
    requires server.search.status == "OK"
    requires Session(server, mailbox, markAsRead, primaryOnly).outcome.Returned?
    ensures var r := Session(server, mailbox, markAsRead, primaryOnly);
      !server.loginRaises && !server.searchRaises && r.outcome.items == OkEntries(server.replies, server.search.ids)
      && Fetched(r.events) == server.search.ids
  {
    var r := Session(server, mailbox, markAsRead, primaryOnly);
    var opening := [Login, Select(mailbox), Search(primaryOnly)];
    var closing := [Close, Logout];
    var ids := server.search.ids;
    var s := Scan(server.replies, ids, markAsRead);
    var a := Attempt(server, mailbox, markAsRead, primaryOnly);
    assert r.outcome == a.outcome && r.events == a.events + closing;
    assert !server.loginRaises && !server.searchRaises && s.raisedAt.None?
      && a.outcome == Returned(OkEntries(server.replies, ids[..s.count]))
      && a.events == opening + s.events;
    assert ids[..s.count] == ids by {
      ScanWithoutRaise(server.replies, ids, markAsRead);
    }
    assert Fetched(r.events) == ids by {
      ScanWithoutRaise(server.replies, ids, markAsRead);
      FetchedNone(opening);
      FetchedNone(closing);
      FetchedAppend(opening, s.events);
      FetchedAppend(opening + s.events, closing);
    }
  }

  /** The whole trace of a session keeps the store-after-append order. */
  lemma SessionOrdered(server: Server, mailbox: string, markAsRead: bool, primaryOnly: bool)
    ensures WellOrdered(Session(server, mailbox, markAsRead, primaryOnly).events, server.replies, markAsRead)
  {
    var r := Session(server, mailbox, markAsRead, primaryOnly);
    var opening := [Login, Select(mailbox), Search(primaryOnly)];
    var closing := [Close, Logout];
    WellOrderedWithoutLoop(opening, server.replies, markAsRead);
    WellOrderedWithoutLoop(closing, server.replies, markAsRead);
    if server.loginRaises {
      assert r.events == [Login] + closing;
      WellOrderedWithoutLoop(r.events, server.replies, markAsRead);
    } else if !server.searchRaises && server.search.status == "OK" {
      var s := Scan(server.replies, server.search.ids, markAsRead);
      ScanWellOrdered(server.replies, server.search.ids, markAsRead);
      assert r.events == (opening + s.events) + closing;
      WellOrderedAppend(opening, s.events, server.replies, markAsRead);
      WellOrderedAppend(opening + s.events, closing, server.replies, markAsRead);
    } else {
      assert r.events == opening + closing;
      WellOrderedAppend(opening, closing, server.replies, markAsRead);
    }
  }
}
