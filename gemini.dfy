/** The local part of the AI helper: the generation config, the cleaning of
    the reply text and the error object returned when the reply is not JSON. */
module Gemini {
  import opened Strings
  import opened JsonValues

  const MimeKey: string := "response_mime_type"
  const SchemaKey: string := "response_schema"
  const JsonFence: string := "```json"
  const ParseFailureMessage: string := "Failed to parse AI response"

  /** The generation config: empty, and given the JSON mime type and the schema
      when a truthy schema is passed (`JNull` stands for no schema). */
  method BuildGenerationConfig(schema: Json) returns (config: map<string, Json>)
    ensures Truthy(schema) ==> config == map[MimeKey := JStr("application/json"), SchemaKey := schema]
    ensures !Truthy(schema) ==> config == map[]
  {
    config := map[];
    if Truthy(schema) {
      config := config[MimeKey := JStr("application/json")];
      config := config[SchemaKey := schema];
    }
  }

  /** `text.strip().replace('```json', '').replace('```', '').strip()`. */
  function CleanResponseText(text: string): (r: string)
    ensures !Contains(r, Fence)
    ensures r == [] || (!IsSpace(r[0]) && !IsSpace(r[|r| - 1]))
  {
    var noFence := RemoveAll(RemoveAll(Strip(text), JsonFence), Fence);
    RemoveFenceLeavesNoFence(RemoveAll(Strip(text), JsonFence));
    StripKeepsAbsent(noFence, Fence);
    Strip(noFence)
  }

  /** Removing a pattern whose first character does not occur changes nothing. */
  lemma {:induction false} RemoveAbsent(s: string, p: string)
    requires p != []
    requires forall i :: 0 <= i < |s| ==> s[i] != p[0]
    ensures RemoveAll(s, p) == s
    decreases |s|
  {
    if |s| >= |p| {
      assert s[..|p|][0] == s[0];
      RemoveAbsent(s[1..], p);
    }
  }

  /** Stripping twice is stripping once. */
  lemma StripIdempotent(s: string)
    ensures Strip(Strip(s)) == Strip(s)
  {
    var r := Strip(s);
    assert StripLeading(r) == r;
    assert StripTrailing(r) == r;
  }

  /** `strip()` only drops characters: a character absent before is absent after. */
  lemma StripKeepsCharAbsent(text: string, c: char)
    requires forall i :: 0 <= i < |text| ==> text[i] != c
    ensures forall i :: 0 <= i < |Strip(text)| ==> Strip(text)[i] != c
  {
    var l := StripLeading(text);
    assert forall i :: 0 <= i < |l| ==> l[i] == text[|text| - |l| + i];
    var r := StripTrailing(l);
    assert forall i :: 0 <= i < |r| ==> r[i] == l[i];
  }

  /** A reply without backticks is only stripped. */
  lemma PlainReplyIsStripped(text: string)
    requires forall i :: 0 <= i < |text| ==> text[i] != '`'
    ensures CleanResponseText(text) == Strip(text)
  {
    var s := Strip(text);
    StripKeepsCharAbsent(text, '`');
    RemoveAbsent(s, JsonFence);
    RemoveAbsent(s, Fence);
    StripIdempotent(text);
  }

  /** Text that starts and ends with a non-space character is left as it is by `strip()`. */
  lemma StripKeepsTrimmed(s: string)
    requires s != [] && !IsSpace(s[0]) && !IsSpace(s[|s| - 1])
    ensures Strip(s) == s
  {
    assert StripLeading(s) == s;
  }

  /** Removing a pattern from `x + y`, where no character of `x` starts the
      pattern, keeps `x` and removes the pattern from `y`. */
  lemma {:induction false} RemoveAfterPlainPrefix(x: string, y: string, p: string)
    requires p != []
    requires forall i :: 0 <= i < |x| ==> x[i] != p[0]
    ensures RemoveAll(x + y, p) == x + RemoveAll(y, p)
    decreases |x|
  {
    var s := x + y;
    if x == [] {
      assert s == y;
    } else if |s| < |p| {
      assert RemoveAll(y, p) == y;
    } else {
      assert s[..|p|] != p by { assert s[..|p|][0] == x[0]; }
      assert s[1..] == x[1..] + y;
      RemoveAfterPlainPrefix(x[1..], y, p);
      assert RemoveAll(s, p) == [x[0]] + (x[1..] + RemoveAll(y, p));
      assert [x[0]] + x[1..] == x;
    }
  }

  /** Removing `p` from a text that starts with `p` drops that occurrence first. */
  lemma RemoveLeading(p: string, y: string)
    requires p != []
    ensures RemoveAll(p + y, p) == RemoveAll(y, p)
  {
    var s := p + y;
    assert s[..|p|] == p && s[|p|..] == y;
  }

  /** The closing fence removes itself. */
  lemma RemoveClosingFence(b: string)
    requires forall i :: 0 <= i < |b| ==> b[i] != '`'
    ensures RemoveAll(b + Fence, Fence) == b
  {
    RemoveAfterPlainPrefix(b, Fence, Fence);
    RemoveLeading(Fence, []);
    assert Fence + [] == Fence && b + [] == b;
  }

  /** A payload fenced as ```json … ``` comes out as the stripped payload. */
  lemma JsonFencedReplyIsPayload(b: string)
    requires forall i :: 0 <= i < |b| ==> b[i] != '`'
    ensures CleanResponseText(JsonFence + b + Fence) == Strip(b)
  {
    var text := JsonFence + b + Fence;
    StripKeepsTrimmed(text);
    assert text == JsonFence + (b + Fence);
    RemoveLeading(JsonFence, b + Fence);
    RemoveAfterPlainPrefix(b, Fence, JsonFence);
    assert RemoveAll(Fence, JsonFence) == Fence;
    RemoveClosingFence(b);
  }

  /** A text not starting with "json" differs from it in one of its first four places. */
  lemma NotJsonAt(b: string)
    requires |b| >= 4 && !StartsWith(b, "json")
    ensures exists j :: 0 <= j < 4 && b[j] != "json"[j]
  {
    assert b[..4] != "json";
  }

  /** A fenced reply without the json tag: ``` can only start the ```json tag
      where the payload begins with "json". */
  lemma PlainFenceHasNoJsonTag(b: string)
    requires forall i :: 0 <= i < |b| ==> b[i] != '`'
    requires !StartsWith(b, "json")
    ensures !Contains(Fence + b + Fence, JsonFence)
  {
    var t := Fence + b + Fence;
    assert forall i :: 0 <= i < |t| ==> t[i] == if 3 <= i < 3 + |b| then b[i - 3] else '`';
    forall k: nat
      ensures !OccursAt(t, JsonFence, k)
    {
      if k + 7 <= |t| {
        var j: nat;
        if k == 0 && |b| >= 4 {
          NotJsonAt(b);
          var d :| 0 <= d < 4 && b[d] != "json"[d];
          j := d + 3;
        } else if k == 0 {
          j := 3 + |b|;
        } else if k <= 2 {
          j := 3 - k;
        } else {
          j := 0;
        }
        assert t[k..k + 7][j] == t[k + j] != JsonFence[j];
      }
    }
  }

  /** Removing a pattern that does not occur changes nothing. */
  lemma {:induction false} RemoveNotContained(s: string, p: string)
    requires p != []
    requires !Contains(s, p)
    ensures RemoveAll(s, p) == s
    decreases |s|
  {
    if |s| >= |p| {
      assert !OccursAt(s, p, 0);
      OccursInTail(s, p);
      assert !Contains(s[1..], p) by {
        forall k: nat | k <= |s[1..]|
          ensures !OccursAt(s[1..], p, k)
        {
          assert !OccursAt(s, p, k + 1);
        }
      }
      RemoveNotContained(s[1..], p);
    }
  }

  /** A payload fenced as ``` … ``` comes out as the stripped payload. */
  lemma PlainFencedReplyIsPayload(b: string)
    requires forall i :: 0 <= i < |b| ==> b[i] != '`'
    requires !StartsWith(b, "json")
    ensures CleanResponseText(Fence + b + Fence) == Strip(b)
  {
    var text := Fence + b + Fence;
    StripKeepsTrimmed(text);
    PlainFenceHasNoJsonTag(b);
    RemoveNotContained(text, JsonFence);
    assert text == Fence + (b + Fence);
    RemoveLeading(Fence, b + Fence);
    RemoveClosingFence(b);
  }

  /** What `json.loads` made of the cleaned text. */
  datatype ParseOutcome = Parsed(value: Json) | ParseError(detail: string)

  /** The object returned when the reply cannot be parsed; it carries the
      reply text as received, before cleaning. */
  function ParseFailureObject(rawText: string, detail: string): (r: Json)
    ensures r.JObj? && r.fields.Keys == {"error", "detail", "raw_text"}
    ensures r.fields["error"] == JStr(ParseFailureMessage)
    ensures r.fields["detail"] == JStr(detail) && r.fields["raw_text"] == JStr(rawText)
  {
    JObj(map["error" := JStr(ParseFailureMessage), "detail" := JStr(detail), "raw_text" := JStr(rawText)])
  }

  /** The reply handling: parse the cleaned text; on failure return the error object. */
  function HandleReply(rawText: string, parse: string -> ParseOutcome): (r: Json)
    ensures parse(CleanResponseText(rawText)).Parsed? ==> r == parse(CleanResponseText(rawText)).value
    ensures parse(CleanResponseText(rawText)).ParseError? ==>
              r == ParseFailureObject(rawText, parse(CleanResponseText(rawText)).detail)
  {
    match parse(CleanResponseText(rawText))
    case Parsed(v) => v
    case ParseError(detail) => ParseFailureObject(rawText, detail)
  }
}
