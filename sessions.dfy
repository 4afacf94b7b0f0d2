/** The database as the handler sees it: logins, statements, commits and
    closes, recorded in order in an event log. What the server does with a
    statement is not modelled; its observable answers are given by `Server`. */
module Sessions {
  import opened Credentials

  /** A statement as handed to the client library: a template and its parameters. */
  datatype Statement = Statement(query: string, args: seq<string>)

  /** One observable action on the database. `Ran` is recorded for every
      statement submitted, whether or not the server accepted it. */
  datatype DbEvent = Opened(params: ConnParams) | Ran(stmt: Statement) | Committed | Closed

  /** The server's answers: whether a login succeeds, the first column of the
      rows `SHOW GRANTS` returns for a user, and whether a statement succeeds. */
  datatype Server = Server(accepts: ConnParams -> bool,
                           grantsFor: string -> seq<string>,
                           succeeds: Statement -> bool)

  /** Events that may occur inside an open connection. */
  predicate Plain(body: seq<DbEvent>) {
    forall i :: 0 <= i < |body| ==> body[i].Ran? || body[i].Committed?
  }

  /** Every connection opened in `events` is closed again, no statement or
      commit happens outside a connection, and connections do not nest. */
  predicate Bracketed(events: seq<DbEvent>)
    decreases |events|
  {
    events == [] || (events[0].Opened? && InSession(events[1..]))
  }

  /** `events` continues an open connection: it closes it and is bracketed afterwards. */
  predicate InSession(events: seq<DbEvent>)
    decreases |events|
  {
    events != [] &&
    if events[0].Closed? then Bracketed(events[1..])
    else !events[0].Opened? && InSession(events[1..])
  }

  lemma {:induction false} InSessionClose(body: seq<DbEvent>)
    requires Plain(body)
    ensures InSession(body + [Closed])
    decreases |body|
  {
    if body == [] {
      assert (body + [Closed])[1..] == [];
    } else {
      assert (body + [Closed])[1..] == body[1..] + [Closed];
      InSessionClose(body[1..]);
    }
  }

  /** A connection that is opened, used for plain events and closed is bracketed. */
  lemma SessionBracketed(p: ConnParams, body: seq<DbEvent>)
    requires Plain(body)
    ensures Bracketed([Opened(p)] + body + [Closed])
  {
    InSessionClose(body);
    assert ([Opened(p)] + body + [Closed])[1..] == body + [Closed];
  }

  lemma {:induction false} InSessionConcat(a: seq<DbEvent>, b: seq<DbEvent>)
    requires InSession(a) && Bracketed(b)
    ensures InSession(a + b)
    decreases |a|
  {
    assert (a + b)[1..] == a[1..] + b;
    if a[0].Closed? {
      BracketedConcat(a[1..], b);
    } else {
      InSessionConcat(a[1..], b);
    }
  }

  /** Bracketed logs compose. */
  lemma {:induction false} BracketedConcat(a: seq<DbEvent>, b: seq<DbEvent>)
    requires Bracketed(a) && Bracketed(b)
    ensures Bracketed(a + b)
    decreases |a|
  {
    if a == [] {
      assert a + b == b;
    } else {
      assert (a + b)[1..] == a[1..] + b;
      InSessionConcat(a[1..], b);
    }
  }

  /** The database connection the handler drives, with the log of what it did. */
  class Database {
    const server: Server
    var log: seq<DbEvent>

    constructor (server: Server)
      ensures this.server == server && log == []
    {
      this.server := server;
      log := [];
    }

    /** A login attempt; a refused login opens nothing. */
    method Connect(p: ConnParams) returns (ok: bool)
      modifies this`log
      ensures ok == server.accepts(p)
      ensures log == old(log) + (if ok then [Opened(p)] else [])
    {
      ok := server.accepts(p);
      if ok {
        log := log + [Opened(p)];
      }
    }

    /** A login used only to check a credential: an accepted login is
        closed again at once. */
    method Probe(p: ConnParams) returns (ok: bool)
      modifies this`log
      ensures ok == server.accepts(p)
      ensures log == old(log) + (if ok then [Opened(p), Closed] else [])
    {
      ok := Connect(p);
      if ok {
        Close();
      }
    }

    method Execute(s: Statement) returns (ok: bool)
      modifies this`log
      ensures ok == server.succeeds(s)
      ensures log == old(log) + [Ran(s)]
    {
      ok := server.succeeds(s);
      log := log + [Ran(s)];
    }

    /** The rows of the `SHOW GRANTS` statement just executed for `user`. */
    method FetchGrants(user: string) returns (rows: seq<string>)
      ensures rows == server.grantsFor(user)
    {
      rows := server.grantsFor(user);
    }

    method Commit()
      modifies this`log
      ensures log == old(log) + [Committed]
    {
      log := log + [Committed];
    }

    method Close()
      modifies this`log
      ensures log == old(log) + [Closed]
    {
      log := log + [Closed];
    }
  }
}
