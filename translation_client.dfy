/**
 * `translate_text(text, target_lang)`: one GET request to a public
 * translation endpoint, whose reply is reduced to a single string.
 *
 * The request itself is outside the model: the function takes what came
 * back, already parsed.  Whatever goes wrong gives the fixed sentinel
 * "Translation unavailable"; nothing is raised to the caller.
 */
module TranslationClient {
  import opened Wrappers
  import opened Text

  const Unavailable: string := "Translation unavailable"

  /**
   * One item of the first element of the parsed reply, seen through its
   * first component `item[0]`.
   */
  datatype Fragment =
    | Dropped              // the item is empty or null, or its first component is falsy (None, 0, [])
    | Piece(text: string)  // the first component is a string; "" is falsy and dropped too
    | NotText              // a truthy first component that is not a string: `join` raises `TypeError`

  /** What the request produced. */
  datatype Reply =
    | NoReply                                   // the request raised: connection failure or the 10-second timeout
    | Reply(status: int, json: Option<seq<seq<Fragment>>>)   // `None`: the body is null or does not parse

  /** A fragment the comprehension keeps: `item and item[0]` is true of it. */
  predicate Kept(f: Fragment) {
    (f.Piece? && f.text != "") || f.NotText?
  }

  /** Every kept component is a string, so `join` does not raise. */
  predicate AllText(items: seq<Fragment>) {
    forall i :: 0 <= i < |items| ==> !items[i].NotText?
  }

  /** `''.join([item[0] for item in items if item and item[0]])` over the string components. */
  function Join(items: seq<Fragment>): (r: string)
  {
    if items == [] then ""
    else (if items[0].Piece? then items[0].text else "") + Join(items[1..])
  }

  /**
   * The reply yields a translation: status 200, `result and result[0]`,
   * and a join that does not raise.
   */
  predicate Usable(reply: Reply) {
    reply.Reply? && reply.status == 200 && reply.json.Some?
    && |reply.json.value| > 0 && |reply.json.value[0]| > 0
    && AllText(reply.json.value[0])
  }

  /** `translate_text`, given the reply of its request. */
  function TranslateText(reply: Reply): (r: string)
  {
    if Usable(reply) then Strip(Join(reply.json.value[0])) else Unavailable
  }

  /** The join is concatenation of consecutive runs of fragments. */
  lemma {:induction false} JoinAppend(a: seq<Fragment>, b: seq<Fragment>)
    ensures Join(a + b) == Join(a) + Join(b)
  {
    if a == [] {
      assert a + b == b;
    } else {
      assert (a + b)[1..] == a[1..] + b;
      JoinAppend(a[1..], b);
    }
  }

  /** A single fragment contributes its text when kept and nothing otherwise. */
  lemma JoinOne(f: Fragment)
    requires !f.NotText?
    ensures Join([f]) == if Kept(f) then f.text else ""
  {
    assert [f][1..] == [];
  }

  /** Fragments that are all dropped contribute nothing. */
  lemma {:induction false} JoinNothingKept(items: seq<Fragment>)
    requires forall i :: 0 <= i < |items| ==> !Kept(items[i])
    ensures Join(items) == ""
  {
    if items != [] {
      JoinNothingKept(items[1..]);
    }
  }

  /** The result is never surrounded by whitespace. */
  lemma TranslateTextTrimmed(reply: Reply)
    ensures Trimmed(TranslateText(reply))
  {
    if Usable(reply) {
      StripIdempotent(Join(reply.json.value[0]));
    } else {
      var u := Unavailable;
      assert u[..0] == [] && u[|u|..] == [] && u[0..|u|] == u;
      StripIsTheTrimmedSlice(u, 0, |u|);
    }
  }

  /**
   * A usable reply translates to a slice of the joined fragments with only
   * whitespace cut away on either side; any other reply (no reply, a status
   * other than 200, an unparsable body, an empty list, a component that is
   * not a string) translates to the sentinel.
   */
  lemma TranslateTextSpec(reply: Reply) returns (i: nat, j: nat)
    ensures !Usable(reply) ==> TranslateText(reply) == Unavailable
    ensures Usable(reply) ==>
      var joined := Join(reply.json.value[0]);
      && i <= j <= |joined| && TranslateText(reply) == joined[i..j]
      && AllSpace(joined[..i]) && AllSpace(joined[j..])
  {
    i, j := 0, 0;
    if Usable(reply) {
      i, j := StripKeepsSlice(Join(reply.json.value[0]));
    }
  }

  /**
   * The sentinel does not mark a failure: a successful reply whose one
   * fragment is the sentinel's own text gives the same result as a failed request.
   */
  lemma SentinelIsAmbiguous()
    ensures var reply := Reply(200, Some([[Piece(Unavailable)]]));
      Usable(reply) && TranslateText(reply) == Unavailable == TranslateText(NoReply)
  {
    var reply := Reply(200, Some([[Piece(Unavailable)]]));
    JoinOne(Piece(Unavailable));
    var u := Unavailable;
    assert u[..0] == [] && u[|u|..] == [] && u[0..|u|] == u;
    StripIsTheTrimmedSlice(u, 0, |u|);
  }

  /**
   * A usable reply whose fragments are all empty or missing translates to
   * the empty string, not to the sentinel: the guard looks at the list,
   * not at what the join produces.
   */
  lemma EmptyJoinIsNotSentinel(reply: Reply)
    requires Usable(reply)
    requires forall i :: 0 <= i < |reply.json.value[0]| ==> !Kept(reply.json.value[0][i])
    ensures TranslateText(reply) == "" != Unavailable
  {
    JoinNothingKept(reply.json.value[0]);
    assert Strip("") == "";
  }
}
