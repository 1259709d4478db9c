/**
 * Client code that uses the builder the way its test file does, proved from
 * the builder's contracts alone.
 */
module Scenario {
  import opened Wrappers
  import opened StringTrim
  import opened JsonStringify
  import opened Response

  /**
   * Construction: the default payload, each mutator returning the same instance,
   * a registry code accepted and an unknown one refused.
   */
  method ConstructionScenario() returns (p: Payload, chained: bool, moved: bool, unknown: bool)
    ensures p == Payload(200, map[], "")
    ensures chained && moved && !unknown
  {
    var created := AWSLambdaProxyResponse.Create(None);
    ValidStatusCodes(200);
    var response := created.value;
    var status := response.SetStatusCode(200);
    var same := response.AddHeaders(map[]);
    var self := response.SetBody(Text(""));
    chained := status.Success? && status.value == response && same.Success? && same.value == response
               && self == response;
    p := response.GetPayload();

    ValidStatusCodes(301);
    var withMoved := AWSLambdaProxyResponse.Create(Some(301));
    moved := withMoved.Success?;

    ValidStatusCodes(418);
    var withUnknown := AWSLambdaProxyResponse.Create(Some(418));
    unknown := withUnknown.Success?;
  }

  /** The header names the tests use: the accepted ones and the refused one. */
  lemma ExampleHeaderNames()
    ensures ValidHeaderName("x-magnetikonline") && ValidHeaderName("Content-Type")
    ensures ValidHeaderName("x-another-header") && ValidHeaderName("x-fourth-header")
    ensures ValidHeaderName("x-first") && ValidHeaderName("x-second")
    ensures !ValidHeaderName("x-invalid^%$#@-header")
  {
    assert !IsHeaderNameChar("x-invalid^%$#@-header"[9]);
  }

  /** The header values the tests use have nothing to trim. */
  lemma ExampleHeaderValues()
    ensures Trim("developer") == "developer" && Trim("application/json") == "application/json"
    ensures Trim("value") == "value" && Trim("apples") == "apples"
  {
    TrimFixesTrimmed("developer");
    TrimFixesTrimmed("application/json");
    TrimFixesTrimmed("value");
    TrimFixesTrimmed("apples");
  }

  /** A refused status leaves the accepted one in place. */
  method StatusScenario() returns (refused: bool, p: Payload)
    ensures refused && p == Payload(502, map[], "")
  {
    var response := new AWSLambdaProxyResponse();
    ValidStatusCodes(502);
    var status := response.SetStatusCode(502);
    ValidStatusCodes(418);
    status := response.SetStatusCode(418);
    refused := status.Failure?;
    p := response.GetPayload();
  }

  /**
   * A refused header, and a batch of two accepted names and one refused name,
   * both leave the header collection empty.
   */
  method RefusedHeaderScenario() returns (single: bool, batch: bool, p: Payload)
    ensures !single && !batch
    ensures p == Payload(200, map[], "")
  {
    ExampleHeaderNames();
    var response := new AWSLambdaProxyResponse();
    var bad := "x-invalid^%$#@-header";
    var added := response.AddHeader(bad, "value");
    single := added.Success?;
    added := response.AddHeaders(map["x-first" := "value", "x-second" := "value", bad := "value"]);
    batch := added.Success?;
    p := response.GetPayload();
  }

  /** Accepted headers accumulate, one at a time and as a batch. */
  method HeaderScenario() returns (p: Payload)
    ensures p == Payload(
              200,
              map["x-magnetikonline" := "developer", "Content-Type" := "application/json",
                  "x-another-header" := "value", "x-fourth-header" := "apples"],
              "")
  {
    ExampleHeaderNames();
    ExampleHeaderValues();
    var response := new AWSLambdaProxyResponse();
    var added := response.AddHeader("x-magnetikonline", "developer");
    added := response.AddHeader("Content-Type", "application/json");
    ghost var before := response.headers;
    assert before == map["x-magnetikonline" := "developer", "Content-Type" := "application/json"];
    added := response.AddHeaders(map["x-another-header" := "value", "x-fourth-header" := "apples"]);
    ApplyBatchPair(before, "x-another-header", "value", "x-fourth-header", "apples");
    p := response.GetPayload();
  }

  /** The JSON text of the object body the tests use. */
  lemma ExampleBodyText()
    ensures Serialize(Object([("one", String("value")), ("two", String("another"))]))
            == "{\"one\":\"value\",\"two\":\"another\"}"
  {
    SerializePlainPair("one", "value", "two", "another");
    ExampleBodyPieces();
  }

  lemma ExampleBodyPieces()
    ensures "{" + ("\"" + "one" + "\"" + ":" + ("\"" + "value" + "\"")) + ","
            + ("\"" + "two" + "\"" + ":" + ("\"" + "another" + "\"")) + "}"
            == "{\"one\":\"value\",\"two\":\"another\"}"
  {
  }

  /** A string body is kept as given, an object body becomes its JSON text. */
  method BodyScenario() returns (text: string, p: Payload)
    ensures text == "Response body"
    ensures p == Payload(200, map[], "{\"one\":\"value\",\"two\":\"another\"}")
  {
    var response := new AWSLambdaProxyResponse();
    var _ := response.SetBody(Text("Response body"));
    text := response.GetPayload().body;
    var _ := response.SetBody(Value(Object([("one", String("value")), ("two", String("another"))])));
    ExampleBodyText();
    p := response.GetPayload();
  }

  /**
   * The whole chain: a registry status, a batch of headers, one more header and
   * an object body, read back as one payload.
   */
  method ChainScenario() returns (p: Payload)
    ensures p == Payload(
              502,
              map["x-magnetikonline" := "developer", "Content-Type" := "application/json",
                  "x-another-header" := "value"],
              "{\"one\":\"value\",\"two\":\"another\"}")
  {
    ExampleHeaderNames();
    ExampleHeaderValues();
    ValidStatusCodes(502);
    var created := AWSLambdaProxyResponse.Create(Some(502));
    var response := created.value;
    var added := response.AddHeaders(map["x-magnetikonline" := "developer", "Content-Type" := "application/json"]);
    ApplyBatchPair(map[], "x-magnetikonline", "developer", "Content-Type", "application/json");
    added := response.AddHeader("x-another-header", "value");
    var _ := response.SetBody(Value(Object([("one", String("value")), ("two", String("another"))])));
    ExampleBodyText();
    p := response.GetPayload();
  }
}
