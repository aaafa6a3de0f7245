/** Awaited statement sequences: what `init` and `transact` send, in order,
    and where the first failure stops them. Everything here is a function of
    the server's answers (`respond`) and of the position the sequence starts
    at in the connection's log. */
module OrmRun {

  import opened Wrappers
  import opened JsValue
  import opened OrmTypes
  import opened OrmDefine
  import opened OrmExecutor
  import opened OrmModel

  /** The plain statements for a list of texts. */
  function Plains(texts: seq<string>): (r: seq<Statement>)
    ensures |r| == |texts|
    ensures forall i :: 0 <= i < |texts| ==> r[i] == Plain(texts[i])
  {
    seq(|texts|, i requires 0 <= i < |texts| => Plain(texts[i]))
  }

  /** `for (const text of texts) await query(text)` over the first `n`
      texts: each statement is sent once the previous one has succeeded; the
      first error ends the sequence and is what it throws. */
  function Run(respond: (nat, Statement) -> Result<QueryResult>, start: nat, texts: seq<string>, n: nat): (t: Trace<()>)
    requires n <= |texts|
    ensures |t.sent| <= n
    ensures t.outcome.Ok? ==> |t.sent| == n
  {
    if n == 0 then Trace([], Ok(()))
    else
      var t := Run(respond, start, texts, n - 1);
      if t.outcome.Err? then t
      else
        var s := Plain(texts[n - 1]);
        var a := respond(start + |t.sent|, s);
        Trace(t.sent + [s], if a.Err? then Err(a.message) else Ok(()))
  }

  /** The loop itself, on a connection: sends the texts in order and
      stops at the first error. */
  method QueryEach(texts: seq<string>, db: Executor) returns (r: Result<()>)
    modifies db
    ensures db.releases == old(db.releases)
    ensures db.issued == old(db.issued) + Run(db.respond, |old(db.issued)|, texts, |texts|).sent
    ensures r == Run(db.respond, |old(db.issued)|, texts, |texts|).outcome
  {
    r := Ok(());
    var i := 0;
    while i < |texts| && r.Ok?
      invariant i <= |texts|
      invariant db.releases == old(db.releases)
      invariant db.issued == old(db.issued) + Run(db.respond, |old(db.issued)|, texts, i).sent
      invariant r == Run(db.respond, |old(db.issued)|, texts, i).outcome
    {
      var a := db.Query(texts[i]);
      if a.Err? {
        r := Err(a.message);
      }
      i := i + 1;
    }
    if i < |texts| {
      ErrSticks(db.respond, |old(db.issued)|, texts, i, |texts|);
    }
  }

  /** Once a statement has failed, later texts are never sent. */
  lemma {:induction false} ErrSticks(respond: (nat, Statement) -> Result<QueryResult>, start: nat,
                                     texts: seq<string>, n: nat, m: nat)
    requires n <= m <= |texts|
    requires Run(respond, start, texts, n).outcome.Err?
    ensures Run(respond, start, texts, m) == Run(respond, start, texts, n)
    decreases m
  {
    if m > n {
      ErrSticks(respond, start, texts, n, m - 1);
    }
  }

  /** The statements sent are the texts, in order, from the first one on. */
  lemma {:induction false} RunSent(respond: (nat, Statement) -> Result<QueryResult>, start: nat, texts: seq<string>, n: nat)
    requires n <= |texts|
    ensures Run(respond, start, texts, n).sent == Plains(texts[..|Run(respond, start, texts, n).sent|])
  {
    if n > 0 {
      RunSent(respond, start, texts, n - 1);
      var t := Run(respond, start, texts, n - 1);
      if t.outcome.Ok? {
        assert texts[..n] == texts[..n - 1] + [texts[n - 1]];
        assert Plains(texts[..n]) == Plains(texts[..n - 1]) + [Plain(texts[n - 1])];
      }
    }
  }

  /** The sequence succeeds exactly when the server accepts every one of the
      texts at its position. */
  lemma {:induction false} RunAllOk(respond: (nat, Statement) -> Result<QueryResult>, start: nat, texts: seq<string>, n: nat)
    requires n <= |texts|
    ensures Run(respond, start, texts, n).outcome.Ok? <==>
      forall i :: 0 <= i < n ==> respond(start + i, Plain(texts[i])).Ok?
  {
    if n > 0 {
      RunAllOk(respond, start, texts, n - 1);
    }
  }

  /** A failed sequence ends with the statement the server refused, and its
      error is the one the server gave. */
  lemma {:induction false} RunFailure(respond: (nat, Statement) -> Result<QueryResult>, start: nat, texts: seq<string>, n: nat)
    requires n <= |texts|
    ensures var t := Run(respond, start, texts, n);
      t.outcome.Err? ==>
        && 0 < |t.sent|
        && respond(start + |t.sent| - 1, t.sent[|t.sent| - 1]) == Err(t.outcome.message)
  {
    if n > 0 {
      RunFailure(respond, start, texts, n - 1);
    }
  }

  /** `b` after `a`, unless `a` has already thrown. */
  function Then<T>(a: Trace<()>, b: Trace<T>): (r: Trace<T>)
    ensures a.outcome.Ok? ==> r == Trace(a.sent + b.sent, b.outcome)
    ensures a.outcome.Err? ==> r.sent == a.sent && r.outcome == Err(a.outcome.message)
  {
    if a.outcome.Err? then Trace(a.sent, Err(a.outcome.message)) else Trace(a.sent + b.sent, b.outcome)
  }

  /** Two loops one after the other send what one loop over both lists does. */
  lemma {:induction false} RunAppend(respond: (nat, Statement) -> Result<QueryResult>, start: nat,
                                     a: seq<string>, b: seq<string>, n: nat)
    requires n <= |b|
    ensures Run(respond, start, a + b, |a| + n) ==
      Then(Run(respond, start, a, |a|), Run(respond, start + |a|, b, n))
  {
    var ab := a + b;
    if n == 0 {
      RunPrefix(respond, start, ab, a, |a|);
    } else {
      RunAppend(respond, start, a, b, n - 1);
      assert ab[|a| + n - 1] == b[n - 1];
    }
  }

  /** `RunAppend` for the whole of the second list. */
  lemma RunJoin(respond: (nat, Statement) -> Result<QueryResult>, start: nat,
                a: seq<string>, b: seq<string>, ab: seq<string>)
    requires ab == a + b
    ensures Run(respond, start, ab, |ab|) == Then(Run(respond, start, a, |a|), Run(respond, start + |a|, b, |b|))
  {
    RunAppend(respond, start, a, b, |b|);
  }

  /** The first `n` texts are all a loop ever looks at. */
  lemma {:induction false} RunPrefix(respond: (nat, Statement) -> Result<QueryResult>, start: nat,
                                     texts: seq<string>, prefix: seq<string>, n: nat)
    requires n <= |prefix| <= |texts| && prefix == texts[..|prefix|]
    ensures Run(respond, start, texts, n) == Run(respond, start, prefix, n)
  {
    if n > 0 {
      RunPrefix(respond, start, texts, prefix, n - 1);
      assert texts[n - 1] == prefix[n - 1];
    }
  }

  // ---------------------------------------------------------------------
  // init
  // ---------------------------------------------------------------------

  /** What `init` reads from a model: its table name, columns and seed rows. */
  datatype ModelState = ModelState(tableName: string, schema: Schema, seedData: Option<seq<Value>>)

  /** `flatMap` of lists of statements, in order. */
  function Flatten(parts: seq<seq<string>>): seq<string>
  {
    if parts == [] then [] else Flatten(parts[..|parts| - 1]) + parts[|parts| - 1]
  }

  /** Flattening two runs of parts is flattening each, one after the other. */
  lemma {:induction false} FlattenAppend(a: seq<seq<string>>, b: seq<seq<string>>)
    ensures Flatten(a + b) == Flatten(a) + Flatten(b)
    decreases |b|
  {
    if b == [] {
      assert a + b == a;
    } else {
      FlattenAppend(a, b[..|b| - 1]);
      assert (a + b)[..|a + b| - 1] == a + b[..|b| - 1];
    }
  }

  /** A statement is in the flattened list exactly when it is in one part. */
  lemma {:induction false} FlattenMember(parts: seq<seq<string>>, s: string)
    ensures s in Flatten(parts) <==> exists i :: 0 <= i < |parts| && s in parts[i]
  {
    if parts != [] {
      var init := parts[..|parts| - 1];
      FlattenMember(init, s);
      if s in Flatten(init) {
        var i :| 0 <= i < |init| && s in init[i];
        assert s in parts[i];
      }
      if exists i :: 0 <= i < |parts| && s in parts[i] {
        var i :| 0 <= i < |parts| && s in parts[i];
        if i < |parts| - 1 {
          assert s in init[i];
        }
      }
    }
  }

  function ExtensionTexts(extensions: seq<string>): (r: seq<string>)
    ensures |r| == |extensions|
    ensures forall i :: 0 <= i < |extensions| ==> r[i] == "CREATE EXTENSION IF NOT EXISTS " + extensions[i]
  {
    seq(|extensions|, i requires 0 <= i < |extensions| => "CREATE EXTENSION IF NOT EXISTS " + extensions[i])
  }

  function DropTexts(defs: seq<Definition>): (r: seq<string>)
    ensures |r| == |defs|
    ensures forall i :: 0 <= i < |defs| ==> r[i] == defs[i].destroyTable
  {
    seq(|defs|, i requires 0 <= i < |defs| => defs[i].destroyTable)
  }

  function CreateTexts(defs: seq<Definition>): (r: seq<string>)
    ensures |r| == |defs|
    ensures forall i :: 0 <= i < |defs| ==> r[i] == defs[i].table
  {
    seq(|defs|, i requires 0 <= i < |defs| => defs[i].table)
  }

  function ForeignKeyParts(defs: seq<Definition>): (r: seq<seq<string>>)
    ensures |r| == |defs|
    ensures forall i :: 0 <= i < |defs| ==> r[i] == defs[i].foreignKeys
  {
    seq(|defs|, i requires 0 <= i < |defs| => defs[i].foreignKeys)
  }

  function GroupParts(defs: seq<Definition>): (r: seq<seq<string>>)
    ensures |r| == |defs|
    ensures forall i :: 0 <= i < |defs| ==> r[i] == defs[i].addUniqueGroupConstraints
  {
    seq(|defs|, i requires 0 <= i < |defs| => defs[i].addUniqueGroupConstraints)
  }

  /** The DDL of `init` in the order its loops send it: extensions, every
      drop, every create, every foreign key, every group constraint. */
  function DdlTexts(extensions: seq<string>, defs: seq<Definition>): seq<string>
  {
    ExtensionTexts(extensions) + DropTexts(defs) + CreateTexts(defs)
      + Flatten(ForeignKeyParts(defs)) + Flatten(GroupParts(defs))
  }

  /** What `await model.seed()` does for a model when its first statement
      gets the server's answer at a given position. */
  type Seeder = (ModelState, nat) -> Trace<bool>

  /** The seeder of the models: `seed` with the executor's hash and the
      server's answers. */
  function SeedOf(hash: string -> string, respond: (nat, Statement) -> Result<QueryResult>): Seeder
  {
    (m: ModelState, at: nat) => SeedTrace(m.tableName, m.schema, m.seedData, hash, respond, at)
  }

  /** `seed` behaves as the models' own `seed()` on each model from the
      `k`-th on. */
  ghost predicate SeedsAs(seed: Seeder, states: seq<ModelState>, hash: string -> string,
                          respond: (nat, Statement) -> Result<QueryResult>, k: nat)
    requires k <= |states|
    decreases |states| - k
  {
    k == |states| ||
    (SeedsOne(seed, states[k], hash, respond) && SeedsAs(seed, states, hash, respond, k + 1))
  }

  /** `seed` behaves as the model's own `seed()` on the model `m`. */
  ghost predicate SeedsOne(seed: Seeder, m: ModelState, hash: string -> string,
                           respond: (nat, Statement) -> Result<QueryResult>)
  {
    forall at: nat :: seed(m, at) == SeedTrace(m.tableName, m.schema, m.seedData, hash, respond, at)
  }

  /** The models' own seeder behaves as itself. */
  lemma {:induction false} SeedOfSeeds(states: seq<ModelState>, hash: string -> string,
                                       respond: (nat, Statement) -> Result<QueryResult>, k: nat)
    requires k <= |states|
    ensures SeedsAs(SeedOf(hash, respond), states, hash, respond, k)
    decreases |states| - k
  {
    if k < |states| {
      SeedOfSeeds(states, hash, respond, k + 1);
    }
  }

  /** A seeder that behaves as the models' own on the models from the
      `k`-th on behaves so on each of them. */
  lemma {:induction false} SeedsAsAt(seed: Seeder, states: seq<ModelState>, hash: string -> string,
                                     respond: (nat, Statement) -> Result<QueryResult>, k: nat, i: nat)
    requires k <= i < |states|
    requires SeedsAs(seed, states, hash, respond, k)
    ensures SeedsOne(seed, states[i], hash, respond)
    decreases i - k
  {
    if k < i {
      SeedsAsAt(seed, states, hash, respond, k + 1, i);
    }
  }

  /** One more model's `await model.seed()` after the sequence `t`, unless
      `t` has already thrown. */
  function SeedJoin(t: Trace<()>, m: ModelState, seed: Seeder, start: nat): Trace<()>
  {
    if t.outcome.Err? then t
    else
      var s := seed(m, start + |t.sent|);
      Trace(t.sent + s.sent, if s.outcome.Err? then Err(s.outcome.message) else Ok(()))
  }

  /** `for (const modelName of this.modelKeys) await model.seed()` over the
      first `n` models. */
  function SeedAll(states: seq<ModelState>, seed: Seeder, start: nat, n: nat): Trace<()>
    requires n <= |states|
  {
    if n == 0 then Trace([], Ok(()))
    else SeedJoin(SeedAll(states, seed, start, n - 1), states[n - 1], seed, start)
  }

  /** The seeds of the first `i + 1` models: those of the first `i`, which
      succeeded, followed by the seed statements of model `i`. */
  lemma SeedNext(states: seq<ModelState>, seed: Seeder, start: nat, i: nat, t: Trace<()>, at: nat, s: Trace<bool>)
    requires i < |states|
    requires t == SeedAll(states, seed, start, i) && t.outcome.Ok?
    requires at == start + |t.sent|
    requires s == seed(states[i], at)
    ensures SeedAll(states, seed, start, i + 1) ==
      Trace(t.sent + s.sent, if s.outcome.Err? then Err(s.outcome.message) else Ok(()))
  {
    assert SeedAll(states, seed, start, i + 1) == SeedJoin(t, states[i], seed, start);
  }

  /** Appending two logs one after the other or at once gives the same log. */
  lemma AppendTwice<T>(log: seq<T>, a: seq<T>, b: seq<T>)
    ensures log + a + b == log + (a + b)
  {
  }

  /** Once a seed has failed, later models are not seeded. */
  lemma {:induction false} SeedSticks(states: seq<ModelState>, seed: Seeder, start: nat, n: nat, m: nat)
    requires n <= m <= |states|
    requires SeedAll(states, seed, start, n).outcome.Err?
    ensures SeedAll(states, seed, start, m) == SeedAll(states, seed, start, n)
    decreases m
  {
    if m > n {
      SeedSticks(states, seed, start, n, m - 1);
    }
  }

  /** A failed seeding fails with the error of one model's seed. */
  lemma {:induction false} SeedAllFailure(states: seq<ModelState>, seed: Seeder, start: nat, n: nat)
    requires n <= |states|
    ensures SeedAll(states, seed, start, n).outcome.Err? ==>
      exists i, p :: 0 <= i < n && seed(states[i], p).outcome == Err(SeedAll(states, seed, start, n).outcome.message)
  {
    if n > 0 {
      SeedAllFailure(states, seed, start, n - 1);
      var t := SeedAll(states, seed, start, n - 1);
      if t.outcome.Ok? {
        var p := start + |t.sent|;
        var s := seed(states[n - 1], p);
        assert s.outcome.Ok? || s.outcome == Err(SeedAll(states, seed, start, n).outcome.message);
      }
    }
  }

  /** The `try` block of `init` outside production, given the DDL its loops
      send: the DDL, then the seeds. */
  function InitTrace(ddl: seq<string>, states: seq<ModelState>,
                     seed: Seeder, respond: (nat, Statement) -> Result<QueryResult>, start: nat): Trace<()>
  {
    Then(Run(respond, start, ddl, |ddl|), SeedAll(states, seed, start + |ddl|, |states|))
  }

  /** `init` sends its DDL in order before any seed statement: what it sent
      is a prefix of the DDL or starts with all of it, and all of it when
      `init` succeeds. */
  lemma InitOrder(ddl: seq<string>, states: seq<ModelState>,
                  seed: Seeder, respond: (nat, Statement) -> Result<QueryResult>, start: nat)
    ensures var t := InitTrace(ddl, states, seed, respond, start);
      && (|t.sent| <= |ddl| ==> t.sent == Plains(ddl[..|t.sent|]))
      && (|t.sent| > |ddl| ==> t.sent[..|ddl|] == Plains(ddl))
      && (t.outcome.Ok? ==> |ddl| <= |t.sent| && t.sent[..|ddl|] == Plains(ddl))
  {
    var r := Run(respond, start, ddl, |ddl|);
    RunSent(respond, start, ddl, |ddl|);
    if r.outcome.Ok? {
      assert ddl[..|ddl|] == ddl;
    }
  }

  // ---------------------------------------------------------------------
  // transact
  // ---------------------------------------------------------------------

  /** A transaction callback: the statements it awaits on the client, in
      order, and what it returns or throws once they have all succeeded. */
  datatype Callback<T> = Callback(statements: seq<string>, result: Result<T>)

  /** The `try` block of `transact`: BEGIN, the callback, COMMIT. */
  function Attempt<T>(cb: Callback<T>, respond: (nat, Statement) -> Result<QueryResult>, start: nat): Trace<T>
  {
    var begin := Plain("BEGIN");
    var a := respond(start, begin);
    if a.Err? then Trace([begin], Err(a.message))
    else
      var body := Run(respond, start + 1, cb.statements, |cb.statements|);
      if body.outcome.Err? then Trace([begin] + body.sent, Err(body.outcome.message))
      else if cb.result.Err? then Trace([begin] + body.sent, Err(cb.result.message))
      else
        var commit := Plain("COMMIT");
        var c := respond(start + 1 + |body.sent|, commit);
        Trace([begin] + body.sent + [commit], if c.Err? then Err(c.message) else cb.result)
  }

  /** `transact`: on any error in the `try` block, ROLLBACK and rethrow; an
      error of the ROLLBACK itself is what is thrown then. */
  function TransactTrace<T>(cb: Callback<T>, respond: (nat, Statement) -> Result<QueryResult>, start: nat): Trace<T>
  {
    var t := Attempt(cb, respond, start);
    if t.outcome.Ok? then t
    else
      var rollback := Plain("ROLLBACK");
      var b := respond(start + |t.sent|, rollback);
      Trace(t.sent + [rollback], if b.Err? then Err(b.message) else t.outcome)
  }

  /** The protocol: BEGIN first; the transaction ends with COMMIT exactly
      when it returns and with ROLLBACK exactly when it throws; a success
      sent BEGIN, the callback's statements and COMMIT, and returns what the
      callback returned; a callback that throws makes the transaction throw. */
  lemma TransactProtocol<T>(cb: Callback<T>, respond: (nat, Statement) -> Result<QueryResult>, start: nat)
    ensures var t := TransactTrace(cb, respond, start);
      && 2 <= |t.sent|
      && t.sent[0] == Plain("BEGIN")
      && (t.outcome.Ok? <==> t.sent[|t.sent| - 1] == Plain("COMMIT"))
      && (t.outcome.Err? <==> t.sent[|t.sent| - 1] == Plain("ROLLBACK"))
      && (t.outcome.Ok? ==> t.sent == [Plain("BEGIN")] + Plains(cb.statements) + [Plain("COMMIT")] && t.outcome == cb.result)
      && (cb.result.Err? ==> t.outcome.Err?)
  {
    var body := Run(respond, start + 1, cb.statements, |cb.statements|);
    RunSent(respond, start + 1, cb.statements, |cb.statements|);
    if body.outcome.Ok? {
      assert cb.statements[..|body.sent|] == cb.statements;
    }
    assert Plain("COMMIT") != Plain("ROLLBACK") by {
      assert Plain("COMMIT").text[0] != Plain("ROLLBACK").text[0];
    }
  }

  /** The `try` block of `transact` on a client. */
  method TryTransaction<T>(cb: Callback<T>, client: Executor) returns (r: Result<T>)
    modifies client
    ensures client.releases == old(client.releases)
    ensures client.issued == old(client.issued) + Attempt(cb, client.respond, |old(client.issued)|).sent
    ensures r == Attempt(cb, client.respond, |old(client.issued)|).outcome
  {
    var a := client.Query("BEGIN");
    if a.Err? {
      return Err(a.message);
    }
    var body := QueryEach(cb.statements, client);
    if body.Err? {
      return Err(body.message);
    }
    if cb.result.Err? {
      return Err(cb.result.message);
    }
    var c := client.Query("COMMIT");
    r := if c.Err? then Err(c.message) else cb.result;
  }
}
