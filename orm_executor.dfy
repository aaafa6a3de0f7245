/** The database as the data-access layer sees it: a connection that receives
    statements one after another and answers each with rows or an error.
    What the server answers is a parameter of the connection (`respond`, fed
    the position of the statement in the log and the statement itself), so a
    proof about a caller covers every possible pattern of answers and
    failures. The md5 digest used for statement names is a parameter too. */
module OrmExecutor {

  import opened Wrappers
  import opened JsValue

  /** A statement as it reaches the server: its prepared-statement name
      (empty for a plain query), its text and its bound values. */
  datatype Statement = Statement(name: string, text: string, values: seq<Value>)

  /** What the server returns for a statement that succeeds. */
  datatype QueryResult = QueryResult(rows: seq<Value>, rowCount: int)

  /** What a sequence of awaited statements leaves behind: the statements
      sent, in order, and the outcome (a value, or the error that stopped it). */
  datatype Trace<T> = Trace(sent: seq<Statement>, outcome: Result<T>)

  /** The plain statement `query(text)` sends. */
  function Plain(text: string): Statement
  {
    Statement("", text, [])
  }

  /** The name `preparedStatement` sends: the caller's name when it is a
      non-empty string, otherwise the digest of the text. */
  function PreparedName(name: Option<string>, text: string, hash: string -> string): (r: string)
    ensures name.Some? && name.value != "" ==> r == name.value
    ensures name.None? || name == Some("") ==> r == hash(text)
  {
    if name.Some? && name.value != "" then name.value else hash(text)
  }

  /** A connection: the pool, or a client checked out of it. */
  class Executor {
    /** Every statement sent so far, in order. */
    var issued: seq<Statement>
    /** How often the connection was handed back to the pool. */
    var releases: nat
    const hash: string -> string
    const respond: (nat, Statement) -> Result<QueryResult>

    constructor (hash: string -> string, respond: (nat, Statement) -> Result<QueryResult>)
      ensures issued == [] && releases == 0
      ensures this.hash == hash && this.respond == respond
    {
      issued := [];
      releases := 0;
      this.hash := hash;
      this.respond := respond;
    }

    /** The answer the server gives to the statement at position `i`. */
    function Answer(i: nat): Result<QueryResult>
      reads this
      requires i < |issued|
    {
      respond(i, issued[i])
    }

    /** `preparedStatement`: sends a named statement with its values. */
    method Prepared(name: Option<string>, text: string, values: seq<Value>) returns (r: Result<QueryResult>)
      modifies this
      ensures issued == old(issued) + [Statement(PreparedName(name, text, hash), text, values)]
      ensures releases == old(releases)
      ensures r == Answer(|old(issued)|)
    {
      var s := Statement(PreparedName(name, text, hash), text, values);
      issued := issued + [s];
      r := respond(|issued| - 1, s);
    }

    /** `query` / `client.query(text)`: a plain statement without values. */
    method Query(text: string) returns (r: Result<QueryResult>)
      modifies this
      ensures issued == old(issued) + [Statement("", text, [])]
      ensures releases == old(releases)
      ensures r == Answer(|old(issued)|)
    {
      var s := Statement("", text, []);
      issued := issued + [s];
      r := respond(|issued| - 1, s);
    }

    /** `client.release()` */
    method Release()
      modifies this
      ensures issued == old(issued)
      ensures releases == old(releases) + 1
    {
      releases := releases + 1;
    }
  }
}
