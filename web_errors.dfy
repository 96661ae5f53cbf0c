/** The web client's reading of an error body from the gateway. */
module WebErrors {
  import opened Wrappers
  import opened Text

  /** `message?: string | string[]` */
  datatype MessageField = NoMessage | Single(text: string) | Lines(lines: seq<string>)

  datatype GatewayErrorResponse = GatewayErrorResponse(message: MessageField, statusCode: Option<int>,
                                                       error: Option<string>)

  const UnexpectedError := "An unexpected error occurred"
  const LineSeparator := ". "

  /** `parseGatewayError`: one message for the user, `message` first, then
      a non-empty `error`, then a fixed text. */
  function ParseGatewayError(response: GatewayErrorResponse): (r: string)
    ensures response.message.Lines? && response.message.lines == [] ==> r == ""
    ensures response.message.Lines? && |response.message.lines| == 1 ==> r == response.message.lines[0]
    ensures response.message.Lines? ==>
              forall i :: 0 <= i < |response.message.lines| ==> Contains(r, response.message.lines[i])
    ensures response.message.Single? ==> r == response.message.text
    ensures response.message.NoMessage? && response.error.Some? && response.error.value != [] ==>
              r == response.error.value
    ensures response.message.NoMessage? && (response.error.None? || response.error.value == []) ==>
              r == UnexpectedError
  {
    match response.message
    case Lines(lines) =>
      JoinContainsItems(lines, LineSeparator);
      Join(lines, LineSeparator)
    case Single(text) => text
    case NoMessage =>
      if response.error.Some? && response.error.value != [] then response.error.value else UnexpectedError
  }

  lemma OccursInExtension(s: string, t: string, sub: string, i: int)
    requires OccursAt(s, sub, i)
    ensures OccursAt(s + t, sub, i) && OccursAt(t + s, sub, |t| + i)
  {
    assert (s + t)[i..i + |sub|] == s[i..i + |sub|];
    assert (t + s)[|t| + i..|t| + i + |sub|] == s[i..i + |sub|];
  }

  /** An item of the leading items appears in the joined text. */
  lemma JoinKeepsInitItem(items: seq<string>, sep: string, sub: string)
    requires |items| >= 2
    requires Contains(Join(items[..|items| - 1], sep), sub)
    ensures Contains(Join(items, sep), sub)
  {
    var init := Join(items[..|items| - 1], sep);
    var p :| OccursAt(init, sub, p);
    OccursInExtension(init, sep + items[|items| - 1], sub, p);
    assert Join(items, sep) == init + (sep + items[|items| - 1]);
  }

  /** The last item appears in the joined text. */
  lemma JoinKeepsLastItem(items: seq<string>, sep: string)
    requires |items| >= 2
    ensures Contains(Join(items, sep), items[|items| - 1])
  {
    var last := items[|items| - 1];
    var front := Join(items[..|items| - 1], sep) + sep;
    assert OccursAt(last, last, 0);
    OccursInExtension(last, front, last, 0);
    assert Join(items, sep) == front + last;
  }

  /** Each item appears in the joined text. */
  lemma {:induction false} JoinContainsItem(items: seq<string>, sep: string, i: nat)
    requires i < |items|
    ensures Contains(Join(items, sep), items[i])
  {
    if |items| == 1 {
      assert OccursAt(Join(items, sep), items[0], 0);
    } else if i < |items| - 1 {
      JoinContainsItem(items[..|items| - 1], sep, i);
      assert items[..|items| - 1][i] == items[i];
      JoinKeepsInitItem(items, sep, items[i]);
    } else {
      JoinKeepsLastItem(items, sep);
    }
  }

  lemma JoinContainsItems(items: seq<string>, sep: string)
    ensures forall i :: 0 <= i < |items| ==> Contains(Join(items, sep), items[i])
  {
    forall i | 0 <= i < |items|
      ensures Contains(Join(items, sep), items[i])
    {
      JoinContainsItem(items, sep, i);
    }
  }

  /** Each further message is appended after the ones before it, behind
      the ". " separator. */
  lemma MessagesJoinedInOrder(lines: seq<string>, x: string, statusCode: Option<int>, error: Option<string>)
    requires lines != []
    ensures ParseGatewayError(GatewayErrorResponse(Lines(lines + [x]), statusCode, error))
            == ParseGatewayError(GatewayErrorResponse(Lines(lines), statusCode, error)) + LineSeparator + x
  {
    assert (lines + [x])[..|lines|] == lines;
  }

  /** Validation messages are shown in order, separated by ". ". */
  lemma TwoValidationMessages(a: string, b: string, statusCode: Option<int>, error: Option<string>)
    ensures ParseGatewayError(GatewayErrorResponse(Lines([a, b]), statusCode, error)) == a + ". " + b
  {
    assert [a, b][..1] == [a];
  }
}
