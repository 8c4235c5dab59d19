/** The two Express middlewares every protected request passes through:
    `authenticateToken` (middleware/auth.ts) and `validate` with its three
    wrappers (middleware/validation.ts). Both work on one request/response
    exchange, which they update in place. */
module Gate {
  import opened Json
  import opened Text
  import opened Zod

  /** `req.user`: the id, userId, email and username claims, each possibly
      missing. */
  datatype Claims = Claims(id: Option<string>, userId: Option<string>, email: Option<string>, username: Option<string>)

  /** The error object the server replies with. */
  function ErrorBody(message: string): Json
  {
    JObj(map["error" := JStr(message)])
  }

  /** The request part a validator reads and replaces. */
  datatype Part = Body | Params | Query

  function PartName(p: Part): string
  {
    match p
    case Body => "body"
    case Params => "params"
    case Query => "query"
  }

  /** One request and its response while the middleware chain runs. */
  class Exchange {
    var authorization: Option<string>   // req.headers['authorization']
    var body: Json                      // req.body
    var params: Json                    // req.params
    var query: Json                     // req.query
    var user: Option<Claims>            // req.user
    var status: Option<nat>             // the status sent, once a reply is sent
    var reply: Option<Json>             // the JSON sent
    var nextCalls: nat                  // how often `next()` was called

    constructor (authorization: Option<string>, body: Json, params: Json, query: Json)
      ensures this.authorization == authorization && this.body == body
      ensures this.params == params && this.query == query
      ensures user.None? && status.None? && reply.None? && nextCalls == 0
    {
      this.authorization := authorization;
      this.body := body;
      this.params := params;
      this.query := query;
      user := None;
      status := None;
      reply := None;
      nextCalls := 0;
    }

    /** `req[key]`. */
    function Part(key: Part): Json
      reads this
    {
      match key
      case Body => body
      case Params => params
      case Query => query
    }

    /** `res.status(code).json(value)`. */
    method Send(code: nat, value: Json)
      modifies this
      ensures status == Some(code) && reply == Some(value)
      ensures authorization == old(authorization) && body == old(body) && params == old(params)
      ensures query == old(query) && user == old(user) && nextCalls == old(nextCalls)
    {
      status := Some(code);
      reply := Some(value);
    }
  }

  //---------------------------------------------------------------------------
  // authenticateToken
  //---------------------------------------------------------------------------

  /** `authHeader && authHeader.split(' ')[1]`, kept only when truthy: the
      second space-separated word of the header, whatever the first is. */
  function ExtractToken(header: Option<string>): (t: Option<string>)
    ensures t.Some? ==> t.value != "" && ' ' !in t.value
    ensures header.None? || header.value == "" ==> t.None?
  {
    if header.None? then None
    else
      var parts := Split(header.value, ' ');
      if |parts| >= 2 && parts[1] != "" then Some(parts[1]) else None
  }

  /** The token is the second word: for a header `<scheme> <token><rest>`
      where the scheme and token have no space and the rest is empty or
      starts with a space, the token is extracted, whatever the scheme is,
      unless it is empty. */
  lemma ExtractSecondWord(scheme: string, token: string, rest: string)
    requires ' ' !in scheme && ' ' !in token
    requires rest == [] || rest[0] == ' '
    ensures ExtractToken(Some(scheme + " " + token + rest)) == if token == "" then None else Some(token)
  {
    var h := scheme + " " + token + rest;
    assert h == scheme + [' '] + (token + rest);
    SplitAfter(scheme, ' ', token + rest);
    var parts := Split(h, ' ');
    assert parts == [scheme] + Split(token + rest, ' ');
    SplitFirst(token + rest, ' ');
    if rest != [] {
      assert token + rest == token + [' '] + rest[1..];
      IndexOfAfter(token, ' ', rest[1..]);
      assert (token + rest)[..|token|] == token;
    } else {
      assert token + rest == token;
    }
    assert parts[1] == token;
  }

  /** `Bearer ` with nothing after the space counts as a missing token. */
  lemma EmptyBearerIsMissing()
    ensures ExtractToken(Some("Bearer ")) == None
  {
    ExtractSecondWord("Bearer", "", "");
    assert "Bearer" + " " + "" + "" == "Bearer ";
  }

  /** A header of one word carries no token. */
  lemma OneWordIsMissing(h: string)
    requires ' ' !in h
    ensures ExtractToken(Some(h)) == None
  {
  }

  const MissingToken: string := "Unauthorized, access token required"
  const InvalidToken: string := "Forbidden, invalid or expired token"

  /** authenticateToken. `verify` is the token check of the JWT library: it
      yields the claims of a well-signed, unexpired token and nothing
      otherwise (where the library throws). */
  method AuthenticateToken(ex: Exchange, verify: string -> Option<Claims>)
    modifies ex
    ensures var t := ExtractToken(old(ex.authorization));
      && (t.None? ==>
            ex.status == Some(401) && ex.reply == Some(ErrorBody(MissingToken))
            && ex.user == old(ex.user) && ex.nextCalls == old(ex.nextCalls))
      && (t.Some? && verify(t.value).None? ==>
            ex.status == Some(403) && ex.reply == Some(ErrorBody(InvalidToken))
            && ex.user == old(ex.user) && ex.nextCalls == old(ex.nextCalls))
      && (t.Some? && verify(t.value).Some? ==>
            ex.user == verify(t.value) && ex.nextCalls == old(ex.nextCalls) + 1
            && ex.status == old(ex.status) && ex.reply == old(ex.reply))
    ensures ex.authorization == old(ex.authorization) && ex.body == old(ex.body)
    ensures ex.params == old(ex.params) && ex.query == old(ex.query)
  {
    var token := ExtractToken(ex.authorization);
    if token.None? {
      ex.Send(401, ErrorBody(MissingToken));
      return;
    }
    var payload := verify(token.value);
    if payload.None? {
      ex.Send(403, ErrorBody(InvalidToken));
      return;
    }
    ex.user := payload;
    ex.nextCalls := ex.nextCalls + 1;
  }

  //---------------------------------------------------------------------------
  // validate
  //---------------------------------------------------------------------------

  /** One entry of `details`. */
  datatype Detail = Detail(field: string, message: string)

  /** `issues.map(err => ({ field: err.path.join('.'), message: err.message }))`:
      one entry per issue, in order, whose message is the issue's and whose
      field splits back into the issue's path when no path segment holds a dot. */
  function Details(issues: seq<Issue>): (r: seq<Detail>)
    ensures |r| == |issues|
    ensures forall i :: 0 <= i < |r| ==> r[i].message == issues[i].message
    ensures forall i :: 0 <= i < |r| && issues[i].path == [] ==> r[i].field == ""
    ensures forall i ::
      (0 <= i < |r| && |issues[i].path| >= 1 && (forall j :: 0 <= j < |issues[i].path| ==> '.' !in issues[i].path[j]))
      ==> Split(r[i].field, '.') == issues[i].path
  {
    var r := seq(|issues|, i requires 0 <= i < |issues| => Detail(Join(issues[i].path, '.'), issues[i].message));
    forall i | 0 <= i < |r| && |issues[i].path| >= 1
      && (forall j :: 0 <= j < |issues[i].path| ==> '.' !in issues[i].path[j])
      ensures Split(r[i].field, '.') == issues[i].path
    {
      SplitJoin(issues[i].path, '.');
    }
    r
  }

  function DetailJson(d: Detail): Json
  {
    JObj(map["field" := JStr(d.field), "message" := JStr(d.message)])
  }

  /** The 400 reply of a failed validation of `req[key]`. */
  function InvalidPartBody(key: Part, issues: seq<Issue>): Json
  {
    var ds := Details(issues);
    JObj(map[
      "error" := JStr("Invalid " + PartName(key)),
      "details" := JArr(seq(|ds|, i requires 0 <= i < |ds| => DetailJson(ds[i])))
    ])
  }

  /** validate(schema, key): on a failed parse, a 400 reply naming the part
      and `next` is not called; on success `req[key]` becomes the parsed
      output, `next` is called once and no other part is assigned. */
  method Validate(ex: Exchange, parse: Json -> SafeParse, key: Part)
    modifies ex
    ensures var res := parse(old(ex.Part(key)));
      && (res.Failure? ==>
            ex.status == Some(400) && ex.reply == Some(InvalidPartBody(key, res.issues))
            && ex.nextCalls == old(ex.nextCalls) && ex.Part(key) == old(ex.Part(key)))
      && (res.Success? ==>
            ex.Part(key) == res.data && ex.nextCalls == old(ex.nextCalls) + 1
            && ex.status == old(ex.status) && ex.reply == old(ex.reply))
    ensures forall p :: p != key ==> ex.Part(p) == old(ex.Part(p))
    ensures ex.authorization == old(ex.authorization) && ex.user == old(ex.user)
  {
    var result := parse(ex.Part(key));
    if result.Failure? {
      ex.Send(400, InvalidPartBody(key, result.issues));
      return;
    }
    match key {
      case Body => ex.body := result.data;
      case Params => ex.params := result.data;
      case Query => ex.query := result.data;
    }
    ex.nextCalls := ex.nextCalls + 1;
  }

  /** validateBody(schema). */
  method ValidateBody(ex: Exchange, parse: Json -> SafeParse)
    modifies ex
    ensures var res := parse(old(ex.body));
      && (res.Failure? ==>
            ex.status == Some(400) && ex.reply == Some(InvalidPartBody(Body, res.issues))
            && ex.nextCalls == old(ex.nextCalls) && ex.body == old(ex.body))
      && (res.Success? ==>
            ex.body == res.data && ex.nextCalls == old(ex.nextCalls) + 1
            && ex.status == old(ex.status) && ex.reply == old(ex.reply))
    ensures ex.params == old(ex.params) && ex.query == old(ex.query)
    ensures ex.authorization == old(ex.authorization) && ex.user == old(ex.user)
  {
    Validate(ex, parse, Body);
    assert ex.Part(Params) == old(ex.Part(Params)) && ex.Part(Query) == old(ex.Part(Query));
  }

  /** validateParams(schema). */
  method ValidateParams(ex: Exchange, parse: Json -> SafeParse)
    modifies ex
    ensures var res := parse(old(ex.params));
      && (res.Failure? ==>
            ex.status == Some(400) && ex.reply == Some(InvalidPartBody(Params, res.issues))
            && ex.nextCalls == old(ex.nextCalls) && ex.params == old(ex.params))
      && (res.Success? ==>
            ex.params == res.data && ex.nextCalls == old(ex.nextCalls) + 1
            && ex.status == old(ex.status) && ex.reply == old(ex.reply))
    ensures ex.body == old(ex.body) && ex.query == old(ex.query)
    ensures ex.authorization == old(ex.authorization) && ex.user == old(ex.user)
  {
    Validate(ex, parse, Params);
    assert ex.Part(Body) == old(ex.Part(Body)) && ex.Part(Query) == old(ex.Part(Query));
  }

  /** validateQuery(schema). */
  method ValidateQuery(ex: Exchange, parse: Json -> SafeParse)
    modifies ex
    ensures var res := parse(old(ex.query));
      && (res.Failure? ==>
            ex.status == Some(400) && ex.reply == Some(InvalidPartBody(Query, res.issues))
            && ex.nextCalls == old(ex.nextCalls) && ex.query == old(ex.query))
      && (res.Success? ==>
            ex.query == res.data && ex.nextCalls == old(ex.nextCalls) + 1
            && ex.status == old(ex.status) && ex.reply == old(ex.reply))
    ensures ex.body == old(ex.body) && ex.params == old(ex.params)
    ensures ex.authorization == old(ex.authorization) && ex.user == old(ex.user)
  {
    Validate(ex, parse, Query);
    assert ex.Part(Body) == old(ex.Part(Body)) && ex.Part(Params) == old(ex.Part(Params));
  }
}
