/** `formatErrors`: turns a thrown error, or a list of them, into the
    `{ field, message }` records the API returns. A PostgreSQL unique
    violation (code 23505) names the offending column, which is read out of
    the error's `detail` text. */
module ErrorFormat {

  import opened Wrappers
  import opened JsString
  import opened JsValue
  import opened OrmBuilders

  /** An `IError`: the field it concerns and the message, each as the
      value it holds (the field is undefined when none was found). */
  datatype FormattedError = FormattedError(field: Value, message: Value)

  /** PostgreSQL's SQLSTATE for a unique constraint violation. */
  const UniqueViolation := "23505"

  // ---------------------------------------------------------------------
  // the column name in a unique-violation detail: /\([a-z0-9]+\)/im
  // ---------------------------------------------------------------------

  /** `[a-z0-9]` under the case-insensitive flag. */
  predicate IsWordChar(c: char)
  {
    'a' <= c <= 'z' || 'A' <= c <= 'Z' || '0' <= c <= '9'
  }

  /** The length of the run of word characters that starts at `i`. */
  function WordRun(s: string, i: nat): (k: nat)
    requires i <= |s|
    ensures i + k <= |s|
    ensures forall j | i <= j < i + k :: IsWordChar(s[j])
    ensures i + k < |s| ==> !IsWordChar(s[i + k])
    decreases |s| - i
  {
    if i < |s| && IsWordChar(s[i]) then 1 + WordRun(s, i + 1) else 0
  }

  /** The pattern matches at `i`: an opening parenthesis, one or more word
      characters, a closing parenthesis. The word run is greedy, and as a
      closing parenthesis is not a word character, a shorter run cannot be
      followed by one, so this is the only way to match at `i`. */
  predicate MatchesAt(s: string, i: nat)
  {
    i < |s| && s[i] == '(' && WordRun(s, i + 1) >= 1
    && i + 1 + WordRun(s, i + 1) < |s| && s[i + 1 + WordRun(s, i + 1)] == ')'
  }

  /** The word between the parentheses of a match at `i`. */
  function WordAt(s: string, i: nat): (w: string)
    requires MatchesAt(s, i)
    ensures |w| >= 1 && forall j | 0 <= j < |w| :: IsWordChar(w[j])
    ensures OccursAt(s, "(" + w + ")", i)
  {
    var w := s[i + 1..i + 1 + WordRun(s, i + 1)];
    assert s[i..i + |w| + 2] == "(" + w + ")";
    w
  }

  /** The leftmost match at or after `from`, as the regular expression
      engine finds it. */
  function FindMatch(s: string, from: nat): (r: Option<nat>)
    ensures r.Some? ==> from <= r.value && MatchesAt(s, r.value)
    ensures r.Some? ==> forall j | from <= j < r.value :: !MatchesAt(s, j)
    ensures r.None? ==> forall j | from <= j :: !MatchesAt(s, j)
    decreases |s| - from
  {
    if from >= |s| then None
    else if MatchesAt(s, from) then Some(from)
    else FindMatch(s, from + 1)
  }

  /** `detail.match(/\([a-z0-9]+\)/im)?.[0]?.slice(1, -1)`: the word of the
      first match, if there is one. */
  function DetailField(detail: string): (r: Option<string>)
  {
    match FindMatch(detail, 0)
    case Some(i) => Some(WordAt(detail, i))
    case None => None
  }

  /** A parenthesised word is found as soon as nothing before it opens a
      parenthesis: the detail `Key (email)=(a@b.c) already exists.` names
      the column `email`. */
  lemma DetailFieldFinds(prefix: string, w: string, rest: string)
    requires forall j | 0 <= j < |prefix| :: prefix[j] != '('
    requires |w| >= 1 && forall j | 0 <= j < |w| :: IsWordChar(w[j])
    ensures DetailField(prefix + "(" + w + ")" + rest) == Some(w)
  {
    var s := prefix + "(" + w + ")" + rest;
    var i := |prefix|;
    forall j | i + 1 <= j < i + 1 + |w|
      ensures IsWordChar(s[j])
    {
      assert s[j] == w[j - i - 1];
    }
    WordRunIs(s, i + 1, |w|);
    assert MatchesAt(s, i);
    forall j | 0 <= j < i
      ensures !MatchesAt(s, j)
    {
      assert s[j] == prefix[j];
    }
    assert FindMatch(s, 0) == Some(i);
    assert s[i + 1..i + 1 + |w|] == w;
  }

  /** A run of `k` word characters ended by something else has length `k`. */
  lemma {:induction false} WordRunIs(s: string, i: nat, k: nat)
    requires i + k < |s|
    requires forall j | i <= j < i + k :: IsWordChar(s[j])
    requires !IsWordChar(s[i + k])
    ensures WordRun(s, i) == k
    decreases k
  {
    if k > 0 {
      WordRunIs(s, i + 1, k - 1);
    }
  }

  /** Without any parenthesised word the detail names no field. */
  lemma DetailFieldNone(detail: string)
    requires forall j | 0 <= j < |detail| :: detail[j] != '('
    ensures DetailField(detail) == None
  {
  }

  // ---------------------------------------------------------------------
  // formatErrors
  // ---------------------------------------------------------------------

  /** `${field}` for the field found or not found. */
  function FieldText(field: Option<string>): string
  {
    match field
    case Some(w) => w
    case None => "undefined"
  }

  /** The reducer's step for one error. Reading `code` of `undefined` or
      `null` throws, and so does calling `match` on a `detail` that is not
      a string. */
  function FormatOne(e: Value): (r: Result<FormattedError>)
    ensures r.Err? <==> (e.Undefined? || e.Null?
                         || (PropertyOf(e, "code") == Str(UniqueViolation) && !PropertyOf(e, "detail").Str?))
    ensures r.Ok? && PropertyOf(e, "code") != Str(UniqueViolation) ==>
      r.value == FormattedError(PropertyOf(e, "field"), PropertyOf(e, "message"))
    ensures r.Ok? && PropertyOf(e, "code") == Str(UniqueViolation) ==>
      var found := DetailField(PropertyOf(e, "detail").s);
      && r.value.message == Str(FieldText(found) + " already exists")
      && (found.None? <==> r.value.field == Undefined)
      && (found.Some? ==> r.value.field == Str(found.value))
  {
    match ReadProperty(e, "code")
    case Err(m) => Err(m)
    case Ok(code) =>
      if code == Str(UniqueViolation) then
        match PropertyOf(e, "detail")
        case Str(detail) =>
          var found := DetailField(detail);
          var field := if found.Some? then Str(found.value) else Undefined;
          Ok(FormattedError(field, Str(FieldText(found) + " already exists")))
        case Undefined => Err("Cannot read properties of undefined (reading 'match')")
        case Null => Err("Cannot read properties of null (reading 'match')")
        case _ => Err("error.detail.match is not a function")
      else
        Ok(FormattedError(PropertyOf(e, "field"), PropertyOf(e, "message")))
  }

  /** `Array.isArray(error) ? error : [error]` */
  function ErrorsOf(error: Value): (es: seq<Value>)
    ensures error.Arr? ==> es == error.items
    ensures !error.Arr? ==> es == [error]
  {
    if error.Arr? then error.items else [error]
  }

  /** `errors.reduce((all, error) => [...all, format(error)], [])`: the first
      error that throws ends the reduction. */
  function FormatAll(es: seq<Value>): Result<seq<FormattedError>>
  {
    if es == [] then Ok([])
    else
      match FormatAll(es[..|es| - 1])
      case Err(m) => Err(m)
      case Ok(all) =>
        match FormatOne(es[|es| - 1])
        case Err(m) => Err(m)
        case Ok(f) => Ok(all + [f])
  }

  /** `formatErrors(error)` */
  function FormatErrors(error: Value): (r: Result<seq<FormattedError>>)
    ensures !Truthy(error) ==> r == Ok([])
  {
    if !Truthy(error) then Ok([]) else FormatAll(ErrorsOf(error))
  }

  /** The reduction formats every error on its own: it succeeds exactly when
      every error can be formatted, keeps their number and their order, and
      otherwise throws what the first failing error throws. */
  lemma FormatAllPointwise(es: seq<Value>)
    ensures FormatAll(es).Ok? <==> forall i | 0 <= i < |es| :: FormatOne(es[i]).Ok?
    ensures FormatAll(es).Ok? ==>
      |FormatAll(es).value| == |es|
      && forall i | 0 <= i < |es| :: FormatAll(es).value[i] == FormatOne(es[i]).value
    ensures FormatAll(es).Err? ==> exists i | 0 <= i < |es| ::
      FormatOne(es[i]).Err? && FormatAll(es).message == FormatOne(es[i]).message
      && forall j | 0 <= j < i :: FormatOne(es[j]).Ok?
  {
    FormatAllOk(es);
    FormatAllErr(es);
  }

  /** The reduction succeeds exactly when every error can be formatted, and
      then formats each in its place. */
  lemma {:induction false} FormatAllOk(es: seq<Value>)
    ensures FormatAll(es).Ok? <==> forall i | 0 <= i < |es| :: FormatOne(es[i]).Ok?
    ensures FormatAll(es).Ok? ==>
      |FormatAll(es).value| == |es|
      && forall i | 0 <= i < |es| :: FormatAll(es).value[i] == FormatOne(es[i]).value
  {
    if es != [] {
      var init := es[..|es| - 1];
      FormatAllOk(init);
      assert forall i | 0 <= i < |init| :: init[i] == es[i];
    }
  }

  /** A failing reduction fails with the message of the first error that
      cannot be formatted. */
  lemma {:induction false} FormatAllErr(es: seq<Value>)
    ensures FormatAll(es).Err? ==> exists i | 0 <= i < |es| ::
      FormatOne(es[i]).Err? && FormatAll(es).message == FormatOne(es[i]).message
      && forall j | 0 <= j < i :: FormatOne(es[j]).Ok?
  {
    if es != [] {
      var init := es[..|es| - 1];
      FormatAllErr(init);
      FormatAllOk(init);
      assert forall i | 0 <= i < |init| :: init[i] == es[i];
      if FormatAll(init).Err? {
        var i :| 0 <= i < |init| && FormatOne(init[i]).Err? && FormatAll(init).message == FormatOne(init[i]).message
          && forall j | 0 <= j < i :: FormatOne(init[j]).Ok?;
        assert FormatOne(es[i]).Err?;
      } else if FormatOne(es[|es| - 1]).Err? {
        assert FormatOne(es[|es| - 1]).Err? && FormatAll(es).message == FormatOne(es[|es| - 1]).message;
      }
    }
  }

  /** A single error that is not an array is formatted as a list of one. */
  lemma FormatSingle(error: Value)
    requires Truthy(error) && !error.Arr?
    ensures FormatErrors(error) == FormatErrors(Arr([error]))
  {
    assert Truthy(Arr([error]));
  }

  /** A list of errors comes back with one record per error, in order. */
  lemma FormatErrorsList(errors: seq<Value>)
    requires forall i | 0 <= i < |errors| :: FormatOne(errors[i]).Ok?
    ensures FormatErrors(Arr(errors)).Ok?
    ensures |FormatErrors(Arr(errors)).value| == |errors|
    ensures forall i | 0 <= i < |errors| :: FormatErrors(Arr(errors)).value[i] == FormatOne(errors[i]).value
  {
    FormatAllPointwise(errors);
  }
}
