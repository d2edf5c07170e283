/**
 * The token table of the backend and its three endpoints: creating a token,
 * validating it (which puts it in use) and completing it. A token's status
 * only moves forward, UNUSED -> IN_USE -> COMPLETED, and each request
 * touches only the row of its own token. The database is a map from token
 * to row; the uuid generator is a parameter naming the new token, and the
 * completion timestamp is a flag saying whether it has been set.
 */
module Tokens {
  import opened Maybe

  datatype Status = Unused | InUse | Completed

  /** One row of the tokens table. */
  datatype Row = Row(status: Status, usedAt: bool)

  type Table = map<string, Row>

  /** The JSON body of a response. */
  datatype Body =
    | TokenCreated(token: string, status: Status, url: string)
    | TokenValid(token: string, status: Status, valid: bool)
    | Message(message: string)
    | Error(error: string)

  datatype Response = Response(code: int, body: Body)

  /** A response together with the table as the request leaves it. */
  datatype Outcome = Outcome(response: Response, table: Table)

  const UrlPrefix: string := "https://rubensmau.github.io/certificate/?token="

  /** The link handed out for a new token. */
  function TokenUrl(token: string): string
  {
    UrlPrefix + token
  }

  /** The token a handed-out link carries, if it is one. */
  function TokenOfUrl(url: string): Option<string>
  {
    if |url| >= |UrlPrefix| && url[..|UrlPrefix|] == UrlPrefix then Some(url[|UrlPrefix|..]) else None
  }

  /** The link of a token carries that token back. */
  lemma TokenUrlRoundTrip(token: string)
    ensures TokenOfUrl(TokenUrl(token)) == Some(token)
  {
    assert TokenUrl(token)[..|UrlPrefix|] == UrlPrefix;
    assert TokenUrl(token)[|UrlPrefix|..] == token;
  }

  /** Position of a status in the lifecycle. */
  function Rank(s: Status): nat
  {
    match s
    case Unused => 0
    case InUse => 1
    case Completed => 2
  }

  /** The completion time is recorded exactly for completed tokens. */
  ghost predicate WellFormed(table: Table)
  {
    forall t :: t in table ==> (table[t].usedAt <==> table[t].status == Completed)
  }

  /** No token disappears and no status moves backwards from `before` to `after`. */
  ghost predicate Advances(before: Table, after: Table)
  {
    forall t :: t in before ==> t in after && Rank(before[t].status) <= Rank(after[t].status)
  }

  /** Every row other than `token`'s is the same in both tables. */
  ghost predicate OnlyTouches(before: Table, after: Table, token: string)
  {
    forall t :: t != token ==> (t in before <==> t in after) && (t in before ==> before[t] == after[t])
  }

  /**
   * POST /tokens with `newToken` as the generated uuid: a new UNUSED row and
   * 201 with the token and its link; a uuid already in the table breaks the
   * uniqueness constraint and the request fails with 500.
   */
  function Create(table: Table, newToken: string): (o: Outcome)
    ensures o.response.code == 201 || o.response.code == 500
    ensures o.response.body.Error? <==> o.response.code == 500
  {
    if newToken in table then
      Outcome(Response(500, Error("Failed to create token")), table)
    else
      Outcome(Response(201, TokenCreated(newToken, Unused, TokenUrl(newToken))), table[newToken := Row(Unused, false)])
  }

  /**
   * GET /tokens/<token>: 404 for an unknown token, 400 for a completed one;
   * otherwise 200 reporting IN_USE, after moving an UNUSED token to IN_USE.
   */
  function Validate(table: Table, token: string): (o: Outcome)
    ensures o.response.code == 200 || o.response.code == 400 || o.response.code == 404
    ensures o.response.body.Error? <==> o.response.code != 200
  {
    if token !in table then
      Outcome(Response(404, Error("Token not found")), table)
    else if table[token].status == Completed then
      Outcome(Response(400, Error("Token already used")), table)
    else
      var after := if table[token].status == Unused then table[token := table[token].(status := InUse)] else table;
      Outcome(Response(200, TokenValid(token, InUse, true)), after)
  }

  /**
   * DELETE /tokens/<token>: an IN_USE token becomes COMPLETED with its
   * completion time set, and 200; any other token, or none, gives 404.
   */
  function Complete(table: Table, token: string): (o: Outcome)
    ensures o.response.code == 200 || o.response.code == 404
    ensures o.response.body.Error? <==> o.response.code == 404
  {
    if token in table && table[token].status == InUse then
      Outcome(Response(200, Message("Token marked as completed")), table[token := Row(Completed, true)])
    else
      Outcome(Response(404, Error("Token not found or not in use")), table)
  }

  /** A created token is new, UNUSED, and its link carries it. */
  lemma CreateSpec(table: Table, newToken: string)
    ensures var o := Create(table, newToken);
            && (o.response.code == 201 <==> newToken !in table)
            && (o.response.code == 201 ==>
                  && o.table.Keys == table.Keys + {newToken}
                  && o.table[newToken] == Row(Unused, false)
                  && o.response.body.TokenCreated?
                  && TokenOfUrl(o.response.body.url) == Some(newToken))
            && (o.response.code != 201 ==> o.table == table && o.response.code == 500)
  {
    TokenUrlRoundTrip(newToken);
  }

  /**
   * Validation answers 404 exactly for unknown tokens and 400 exactly for
   * completed ones, changing nothing; otherwise it answers 200 and the
   * token is IN_USE afterwards.
   */
  lemma ValidateSpec(table: Table, token: string)
    ensures var o := Validate(table, token);
            && (o.response.code == 404 <==> token !in table)
            && (o.response.code == 400 <==> token in table && table[token].status == Completed)
            && (o.response.code == 200 <==> token in table && table[token].status != Completed)
            && (o.response.code != 200 ==> o.table == table)
            && (o.response.code == 200 ==>
                  token in o.table && o.table[token].status == InUse && o.table[token].usedAt == table[token].usedAt)
  {
  }

  /** Validating twice has the effect and the answer of validating once. */
  lemma ValidateIdempotent(table: Table, token: string)
    ensures var once := Validate(table, token);
            Validate(once.table, token) == once
  {
    var once := Validate(table, token);
    if token in table && table[token].status == Unused {
      assert once.table[token].status == InUse;
    }
  }

  /**
   * Completion succeeds exactly from IN_USE; it then records the
   * completion time, and otherwise changes nothing.
   */
  lemma CompleteSpec(table: Table, token: string)
    ensures var o := Complete(table, token);
            && (o.response.code == 200 <==> token in table && table[token].status == InUse)
            && (o.response.code != 200 ==> o.response.code == 404 && o.table == table)
            && (o.response.code == 200 ==> token in o.table && o.table[token] == Row(Completed, true))
  {
  }

  /** No endpoint moves a status backwards or removes a token. */
  lemma StatusesOnlyAdvance(table: Table, token: string, newToken: string)
    ensures Advances(table, Create(table, newToken).table)
    ensures Advances(table, Validate(table, token).table)
    ensures Advances(table, Complete(table, token).table)
  {
  }

  /** Each endpoint touches only the row of the token it is about. */
  lemma OnlyOwnRowChanges(table: Table, token: string, newToken: string)
    ensures OnlyTouches(table, Create(table, newToken).table, newToken)
    ensures OnlyTouches(table, Validate(table, token).table, token)
    ensures OnlyTouches(table, Complete(table, token).table, token)
  {
  }

  /** Every endpoint keeps completion times recorded exactly for completed tokens. */
  lemma WellFormedPreserved(table: Table, token: string, newToken: string)
    requires WellFormed(table)
    ensures WellFormed(Create(table, newToken).table)
    ensures WellFormed(Validate(table, token).table)
    ensures WellFormed(Complete(table, token).table)
  {
  }

  /**
   * The life of one token: created, validated twice, completed, and then
   * refused: 201, 200, 200, 200, 400, ending COMPLETED with its time set.
   */
  lemma Lifecycle(table: Table, newToken: string)
    requires newToken !in table
    ensures var t1 := Create(table, newToken);
            var t2 := Validate(t1.table, newToken);
            var t3 := Validate(t2.table, newToken);
            var t4 := Complete(t3.table, newToken);
            var t5 := Validate(t4.table, newToken);
            && t1.response.code == 201 && t2.response.code == 200 && t3.response.code == 200
            && t4.response.code == 200 && t5.response.code == 400
            && t5.table == table[newToken := Row(Completed, true)]
  {
  }

  /** A completed token stays completed and can neither be validated nor completed again. */
  lemma CompletedIsFinal(table: Table, token: string)
    requires token in table && table[token].status == Completed
    ensures Validate(table, token).response.code == 400
    ensures Complete(table, token).response.code == 404
    ensures Validate(table, token).table == table && Complete(table, token).table == table
  {
  }

  /** The tokens table behind the three endpoints. */
  class TokenStore {
    var tokens: Table

    ghost predicate Valid()
      reads this
    {
      WellFormed(tokens)
    }

    constructor ()
      ensures Valid() && tokens == map[]
    {
      tokens := map[];
    }

    /** POST /tokens, with `newToken` the uuid the generator produced. */
    method CreateToken(newToken: string) returns (response: Response)
      requires Valid()
      modifies this
      ensures Valid()
      ensures Outcome(response, tokens) == Create(old(tokens), newToken)
    {
      if newToken in tokens {
        return Response(500, Error("Failed to create token"));
      }
      tokens := tokens[newToken := Row(Unused, false)];
      response := Response(201, TokenCreated(newToken, Unused, TokenUrl(newToken)));
    }

    /** GET /tokens/<token>. */
    method ValidateToken(token: string) returns (response: Response)
      requires Valid()
      modifies this
      ensures Valid()
      ensures Outcome(response, tokens) == Validate(old(tokens), token)
    {
      if token !in tokens {
        return Response(404, Error("Token not found"));
      }
      var row := tokens[token];
      if row.status == Completed {
        return Response(400, Error("Token already used"));
      }
      if row.status == Unused {
        tokens := tokens[token := row.(status := InUse)];
      }
      response := Response(200, TokenValid(token, InUse, true));
    }

    /** DELETE /tokens/<token>. */
    method CompleteToken(token: string) returns (response: Response)
      requires Valid()
      modifies this
      ensures Valid()
      ensures Outcome(response, tokens) == Complete(old(tokens), token)
    {
      var rowCount := 0;
      if token in tokens && tokens[token].status == InUse {
        tokens := tokens[token := Row(Completed, true)];
        rowCount := 1;
      }
      if rowCount == 0 {
        return Response(404, Error("Token not found or not in use"));
      }
      response := Response(200, Message("Token marked as completed"));
    }
  }
}
