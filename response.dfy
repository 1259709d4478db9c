/**
 * The AWSLambdaProxyResponse builder: an API-gateway proxy response made of a
 * status code from a fixed registry, a collection of headers whose names are
 * ASCII letters and hyphens, and a body that is always a string. Every change
 * goes through a mutator that validates first and changes nothing on failure.
 */
module Response {
  import opened Wrappers
  import opened StringTrim
  import opened JsonStringify

  /** HTTP_STATUS: the registry of accepted status codes, by symbolic name. */
  const HttpStatus: map<string, int> := map[
    "OK" := 200,
    "MOVED" := 301,
    "FOUND" := 302,
    "BAD_REQUEST" := 400,
    "UNAUTHORIZED" := 401,
    "FORBIDDEN" := 403,
    "NOT_FOUND" := 404,
    "SERVER_ERROR" := 500,
    "NOT_IMPLEMENTED" := 501,
    "BAD_GATEWAY" := 502,
    "SERVICE_UNAVAILABLE" := 503,
    "GATEWAY_TIMEOUT" := 504
  ]

  /**
   * A code is accepted when some registry entry has exactly that value; every
   * such code is a three-digit success, redirection or error status.
   */
  predicate ValidStatus(code: int): (b: bool)
    ensures b ==> 200 <= code < 600
  {
    exists name | name in HttpStatus :: HttpStatus[name] == code
  }

  /** One character of the header-name pattern ^[A-Za-z-]+$. */
  predicate IsHeaderNameChar(c: char) {
    'A' <= c <= 'Z' || 'a' <= c <= 'z' || c == '-'
  }

  /**
   * The header-name pattern ^[A-Za-z-]+$: one or more letters or hyphens and
   * nothing else (without the m flag, `$` matches only at the end of the input).
   * So an accepted name holds no colon and no white space or line break.
   */
  predicate ValidHeaderName(name: string): (b: bool)
    ensures b ==> name != [] && forall i :: 0 <= i < |name| ==> name[i] != ':' && !IsWhiteSpace(name[i])
  {
    |name| > 0 && forall i :: 0 <= i < |name| ==> IsHeaderNameChar(name[i])
  }

  /** Every name is accepted and every value is stored trimmed. */
  predicate WellFormedHeaders(headers: map<string, string>) {
    forall name | name in headers :: ValidHeaderName(name) && IsTrimmed(headers[name])
  }

  datatype ResponseError =
    | InvalidStatusCode(code: int)
    | InvalidHeaderName(name: string)

  /** What setBody is given: a string, or any other (JSON-serialisable) value. */
  datatype Body = Text(text: string) | Value(json: JsonValue)

  /** The three-field object getPayload returns. */
  datatype Payload = Payload(statusCode: int, headers: map<string, string>, body: string) {
    predicate WellFormed() {
      ValidStatus(statusCode) && WellFormedHeaders(headers)
    }
  }

  /** The header collection after a batch is written into it: each value trimmed, last write wins. */
  function ApplyBatch(headers: map<string, string>, batch: map<string, string>): (r: map<string, string>)
    ensures r.Keys == headers.Keys + batch.Keys
    ensures forall name | name in batch :: r[name] == Trim(batch[name])
    ensures forall name | name in headers && name !in batch :: r[name] == headers[name]
  {
    headers + map name | name in batch :: Trim(batch[name])
  }

  /**
   * The validation phase of addHeader: reports a name of the batch that fails
   * the pattern, or None when all of them pass.
   */
  method FindInvalidName(names: set<string>) returns (r: Option<string>)
    ensures r.None? <==> forall name | name in names :: ValidHeaderName(name)
    ensures r.Some? ==> r.value in names && !ValidHeaderName(r.value)
  {
    var pending := names;
    while pending != {}
      invariant pending <= names
      invariant forall name | name in names - pending :: ValidHeaderName(name)
      decreases pending
    {
      var name :| name in pending;
      if !ValidHeaderName(name) {
        return Some(name);
      }
      pending := pending - {name};
    }
    return None;
  }

  class AWSLambdaProxyResponse {
    var statusCode: int
    var headers: map<string, string>
    var body: string

    /**
     * The invariant every construction and every mutator keeps: the status is a
     * registry code, and the header collection is well formed.
     */
    predicate Valid(): (b: bool)
      reads this
      ensures b ==> 200 <= statusCode < 600 && "" !in headers
    {
      ValidStatus(statusCode) && WellFormedHeaders(headers)
    }

    /** `new AWSLambdaProxyResponse()`: status OK, no headers, empty body. */
    constructor ()
      ensures Valid()
      ensures statusCode == 200 && headers == map[] && body == ""
    {
      statusCode := HttpStatus["OK"];
      headers := map[];
      body := "";
      new;
      assert ValidStatus(statusCode) by { assert HttpStatus["OK"] == 200; }
    }

    /**
     * `new AWSLambdaProxyResponse(statusCode)`: the status defaults to OK when
     * absent and is set through SetStatusCode, so an unknown code fails.
     */
    static method Create(statusCode: Option<int>) returns (r: Result<AWSLambdaProxyResponse, ResponseError>)
      ensures r.Success? <==> ValidStatus(statusCode.GetOr(200))
      ensures r.Success? ==> fresh(r.value) && r.value.Valid()
      ensures r.Success? ==> r.value.statusCode == statusCode.GetOr(200)
                             && r.value.headers == map[] && r.value.body == ""
      ensures r.Failure? ==> r.error == InvalidStatusCode(statusCode.GetOr(200))
    {
      var response := new AWSLambdaProxyResponse();
      var status := response.SetStatusCode(statusCode.GetOr(HttpStatus["OK"]));
      match status
      case Failure(e) => r := Failure(e);
      case Success(_) => r := Success(response);
    }

    /** setStatusCode: accepts only registry codes and returns this instance. */
    method SetStatusCode(code: int) returns (r: Result<AWSLambdaProxyResponse, ResponseError>)
      requires Valid()
      modifies this`statusCode
      ensures Valid()
      ensures r.Success? <==> ValidStatus(code)
      ensures r.Success? ==> r.value == this && statusCode == code
      ensures r.Failure? ==> r.error == InvalidStatusCode(code) && statusCode == old(statusCode)
      ensures headers == old(headers) && body == old(body)
    {
      if !ValidStatus(code) {
        return Failure(InvalidStatusCode(code));
      }
      statusCode := code;
      return Success(this);
    }

    /**
     * addHeader with a collection: every name is validated before any is
     * written, so a batch with one bad name leaves the headers as they were.
     */
    method AddHeaders(batch: map<string, string>) returns (r: Result<AWSLambdaProxyResponse, ResponseError>)
      requires Valid()
      modifies this`headers
      ensures Valid()
      ensures r.Success? <==> forall name | name in batch :: ValidHeaderName(name)
      ensures r.Success? ==> r.value == this && headers == ApplyBatch(old(headers), batch)
      ensures r.Failure? ==> r.error.InvalidHeaderName? && r.error.name in batch
                             && !ValidHeaderName(r.error.name) && headers == old(headers)
      ensures statusCode == old(statusCode) && body == old(body)
    {
      var invalid := FindInvalidName(batch.Keys);
      if invalid.Some? {
        return Failure(InvalidHeaderName(invalid.value));
      }
      ghost var target := ApplyBatch(headers, batch);
      var pending := batch.Keys;
      while pending != {}
        invariant pending <= batch.Keys
        invariant headers.Keys == old(headers).Keys + (batch.Keys - pending)
        invariant forall name | name in headers ::
                    headers[name] == if name in pending then old(headers)[name] else target[name]
        decreases pending
      {
        var name :| name in pending;
        headers := headers[name := Trim(batch[name])];
        pending := pending - {name};
      }
      assert headers == target;
      ApplyBatchWellFormed(old(headers), batch);
      return Success(this);
    }

    /** addHeader(name, value): the same as adding the one-entry batch {name: value}. */
    method AddHeader(name: string, value: string) returns (r: Result<AWSLambdaProxyResponse, ResponseError>)
      requires Valid()
      modifies this`headers
      ensures Valid()
      ensures r.Success? <==> ValidHeaderName(name)
      ensures r.Success? ==> r.value == this && headers == old(headers)[name := Trim(value)]
      ensures r.Failure? ==> r.error == InvalidHeaderName(name) && headers == old(headers)
      ensures statusCode == old(statusCode) && body == old(body)
    {
      r := AddHeaders(map[name := value]);
      ApplyBatchSingle(old(headers), name, value);
    }

    /** setBody: a string is stored as given, any other value as its JSON text. */
    method SetBody(b: Body) returns (self: AWSLambdaProxyResponse)
      requires Valid()
      modifies this`body
      ensures Valid() && self == this
      ensures b.Text? ==> body == b.text
      ensures b.Value? ==> body == Serialize(b.json)
      ensures statusCode == old(statusCode) && headers == old(headers)
    {
      body := match b
        case Text(s) => s
        case Value(v) => Serialize(v);
      return this;
    }

    /** getPayload: a snapshot of the three fields, which a valid builder makes well formed. */
    function GetPayload(): (p: Payload)
      reads this
      ensures p.statusCode == statusCode && p.headers == headers && p.body == body
      ensures Valid() ==> p.WellFormed()
    {
      Payload(statusCode, headers, body)
    }
  }

  /** The registry accepts exactly the twelve listed codes. */
  lemma ValidStatusCodes(code: int)
    ensures ValidStatus(code) <==> code in {200, 301, 302, 400, 401, 403, 404, 500, 501, 502, 503, 504}
  {
    if code in {200, 301, 302, 400, 401, 403, 404, 500, 501, 502, 503, 504} {
      var name :=
        if code == 200 then "OK" else if code == 301 then "MOVED" else if code == 302 then "FOUND"
        else if code == 400 then "BAD_REQUEST" else if code == 401 then "UNAUTHORIZED"
        else if code == 403 then "FORBIDDEN" else if code == 404 then "NOT_FOUND"
        else if code == 500 then "SERVER_ERROR" else if code == 501 then "NOT_IMPLEMENTED"
        else if code == 502 then "BAD_GATEWAY" else if code == 503 then "SERVICE_UNAVAILABLE"
        else "GATEWAY_TIMEOUT";
      assert name in HttpStatus && HttpStatus[name] == code;
    }
  }

  /** Writing a batch of accepted names keeps the header collection well formed. */
  lemma ApplyBatchWellFormed(headers: map<string, string>, batch: map<string, string>)
    requires WellFormedHeaders(headers)
    requires forall name | name in batch :: ValidHeaderName(name)
    ensures WellFormedHeaders(ApplyBatch(headers, batch))
  {
    forall name | name in batch
      ensures IsTrimmed(Trim(batch[name]))
    {
      TrimIsTrimmed(batch[name]);
    }
  }

  /** A one-entry batch is an update of one key with the trimmed value. */
  lemma ApplyBatchSingle(headers: map<string, string>, name: string, value: string)
    ensures ApplyBatch(headers, map[name := value]) == headers[name := Trim(value)]
  {
  }

  /** A batch of two distinct names writes the two entries, in either order. */
  lemma ApplyBatchPair(headers: map<string, string>, a: string, x: string, b: string, y: string)
    requires a != b
    ensures ApplyBatch(headers, map[a := x, b := y]) == headers[a := Trim(x)][b := Trim(y)]
  {
  }

  /** The empty batch leaves the headers as they are. */
  lemma ApplyBatchEmpty(headers: map<string, string>)
    ensures ApplyBatch(headers, map[]) == headers
  {
  }

  /** Two batches one after the other write what their union writes, the later one winning. */
  lemma ApplyBatchTwice(headers: map<string, string>, first: map<string, string>, second: map<string, string>)
    ensures ApplyBatch(ApplyBatch(headers, first), second) == ApplyBatch(headers, first + second)
  {
    var middle := ApplyBatch(headers, first);
    var lhs, rhs := ApplyBatch(middle, second), ApplyBatch(headers, first + second);
    assert lhs.Keys == rhs.Keys;
    forall name | name in lhs
      ensures lhs[name] == rhs[name]
    {
      if name in second {
        assert (first + second)[name] == second[name];
      } else if name in first {
        assert lhs[name] == middle[name];
        assert (first + second)[name] == first[name];
      }
    }
  }
}
