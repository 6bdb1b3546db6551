/**
 * The validation and normalisation of `req.body.messages` done at the top
 * of the `/api/chat` handler: reject anything but a non-empty array, keep
 * the last 20 entries in order, pass `role` through and coerce `content`
 * to a string.
 */
module Sanitizer {
  import opened Wrappers

  /**
   * A JSON-derived JavaScript value as the sanitizer sees it: `undefined`
   * (a missing property), `null`, a string, or any other value together
   * with its string form `String(v)`.
   */
  datatype JsValue = Undefined | Null | Str(s: string) | Other(asString: string)

  /** An element of the `messages` array: an object (or primitive) with its `role` and `content`, or `null`. */
  datatype RawEntry = Entry(role: JsValue, content: JsValue) | NullEntry

  /**
   * The `messages` field of the request body, after `req.body || {}`:
   * missing, present but not an array, or an array.
   */
  datatype MessagesField = Absent | NotAnArray | AnArray(entries: seq<RawEntry>)

  /** A message as sent to a provider: the original role and a string content. */
  datatype Message = Message(role: JsValue, content: string)

  /** The outcome of the sanitizing block. */
  datatype Sanitized =
    | Invalid                  // answered with 400 before any provider is called
    | Crashed(detail: string)  // `m.role` threw; the handler's outer `catch` answers
    | Clean(messages: seq<Message>)

  const MaxMessages: nat := 20
  const InvalidMessages: string := "messages must be a non-empty array"

  /** The message of the `TypeError` Node.js throws for `m.role` when `m` is `null`. */
  const NullEntryError: string := "Cannot read properties of null (reading 'role')"

  /** `String(content ?? "")`. */
  function ContentText(v: JsValue): (t: string)
    ensures (v.Undefined? || v.Null?) ==> t == ""
    ensures v.Str? ==> t == v.s
    ensures v.Other? ==> t == v.asString
  {
    match v
    case Undefined => ""
    case Null => ""
    case Str(s) => s
    case Other(s) => s
  }

  /** How many of `len` elements survive `slice(-limit)`: min(len, limit). */
  function KeptCount(len: nat, limit: nat): nat {
    if len < limit then len else limit
  }

  /** `xs.slice(-n)` for a positive `n`: the last `n` elements, or all of them. */
  function KeepLast<T>(xs: seq<T>, n: nat): (r: seq<T>)
    requires n > 0
    ensures |r| == KeptCount(|xs|, n)
    ensures r == xs[|xs| - |r|..]
  {
    if |xs| <= n then xs else xs[|xs| - n..]
  }

  /** The callback of `.map(...)`, on one element. */
  function NormalizeEntry(x: RawEntry): (r: Result<Message, string>)
    ensures r.Success? <==> x.Entry?
    ensures r.Failure? ==> r.error == NullEntryError
    ensures r.Success? ==> r.value.role == x.role && r.value.content == ContentText(x.content)
  {
    match x
    case NullEntry => Failure(NullEntryError)
    case Entry(role, content) => Success(Message(role, ContentText(content)))
  }

  /**
   * `.map(...)` over the kept elements: element by element in order; the
   * first `null` throws, otherwise every element keeps its position and role.
   */
  function NormalizeAll(xs: seq<RawEntry>): (r: Result<seq<Message>, string>)
    ensures r.Success? <==> forall i :: 0 <= i < |xs| ==> xs[i].Entry?
    ensures r.Failure? ==> r.error == NullEntryError
    ensures r.Success? ==>
              && |r.value| == |xs|
              && forall i :: 0 <= i < |xs| ==> r.value[i] == Message(xs[i].role, ContentText(xs[i].content))
  {
    if xs == [] then Success([])
    else match NormalizeEntry(xs[0])
      case Failure(e) => Failure(e)
      case Success(m) =>
        match NormalizeAll(xs[1..])
        case Failure(e) => Failure(e)
        case Success(ms) => Success([m] + ms)
  }

  /** The whole block at the top of the handler. */
  function Sanitize(field: MessagesField): (r: Sanitized)
    ensures r.Invalid? <==> (field.Absent? || field.NotAnArray? || (field.AnArray? && |field.entries| == 0))
    ensures r.Crashed? ==> r.detail == NullEntryError
  {
    match field
    case Absent => Invalid
    case NotAnArray => Invalid
    case AnArray(entries) =>
      if |entries| == 0 then Invalid
      else match NormalizeAll(KeepLast(entries, MaxMessages))
        case Failure(e) => Crashed(e)
        case Success(ms) => Clean(ms)
  }

  /** The sanitizer only ever looks at the kept suffix. */
  lemma SanitizeIsNormalizeOfSuffix(entries: seq<RawEntry>)
    requires |entries| > 0
    ensures var tail := entries[|entries| - KeptCount(|entries|, MaxMessages)..];
      match NormalizeAll(tail)
      case Failure(e) => Sanitize(AnArray(entries)) == Crashed(e)
      case Success(ms) => Sanitize(AnArray(entries)) == Clean(ms)
  {
  }

  /**
   * A non-empty array of n entries is reduced to exactly its last min(n, 20),
   * in their order, each with its role unchanged and its content as a
   * string; this fails only when one of those entries is `null`.
   */
  lemma {:induction false} SanitizeKeepsLastTwenty(entries: seq<RawEntry>)
    requires |entries| > 0
    ensures Sanitize(AnArray(entries)).Clean? <==>
              forall i :: |entries| - KeptCount(|entries|, MaxMessages) <= i < |entries| ==> entries[i].Entry?
    ensures Sanitize(AnArray(entries)).Crashed? <==>
              exists i :: |entries| - KeptCount(|entries|, MaxMessages) <= i < |entries| && entries[i].NullEntry?
    ensures Sanitize(AnArray(entries)).Clean? ==>
              && |Sanitize(AnArray(entries)).messages| == KeptCount(|entries|, MaxMessages)
              && forall i :: 0 <= i < KeptCount(|entries|, MaxMessages) ==>
                   Sanitize(AnArray(entries)).messages[i]
                   == Message(entries[|entries| - KeptCount(|entries|, MaxMessages) + i].role,
                              ContentText(entries[|entries| - KeptCount(|entries|, MaxMessages) + i].content))
  {
    var n := |entries|;
    var kept := KeptCount(n, MaxMessages);
    var tail := entries[n - kept..];
    SanitizeIsNormalizeOfSuffix(entries);
    assert forall i :: 0 <= i < kept ==> tail[i] == entries[n - kept + i];
    var r := NormalizeAll(tail);
    assert Sanitize(AnArray(entries)).Clean? <==> r.Success?;
    if r.Success? {
      assert Sanitize(AnArray(entries)).messages == r.value;
    }
    if r.Failure? {
      var j :| 0 <= j < kept && tail[j].NullEntry?;
      assert entries[n - kept + j].NullEntry?;
    }
    if exists i :: n - kept <= i < n && entries[i].NullEntry? {
      var i :| n - kept <= i < n && entries[i].NullEntry?;
      assert tail[i - (n - kept)].NullEntry?;
    }
  }

  /** A non-empty sanitized conversation never exceeds 20 messages. */
  lemma SanitizedIsBounded(field: MessagesField)
    requires Sanitize(field).Clean?
    ensures 1 <= |Sanitize(field).messages| <= MaxMessages
  {
  }

  /** A conversation of 25 messages is reduced to exactly its last 20. */
  lemma TwentyFiveBecomeTwenty(entries: seq<RawEntry>)
    requires |entries| == 25 && forall i :: 0 <= i < 25 ==> entries[i].Entry?
    ensures Sanitize(AnArray(entries)).Clean?
    ensures var ms := Sanitize(AnArray(entries)).messages;
      && |ms| == 20
      && forall i :: 0 <= i < 20 ==> ms[i] == Message(entries[i + 5].role, ContentText(entries[i + 5].content))
  {
    SanitizeKeepsLastTwenty(entries);
  }

  /** `[{role: "user", content: "hi"}]` passes through unchanged. */
  lemma SingleMessageExample()
    ensures Sanitize(AnArray([Entry(Str("user"), Str("hi"))])) == Clean([Message(Str("user"), "hi")])
  {
    var entries := [Entry(Str("user"), Str("hi"))];
    SanitizeKeepsLastTwenty(entries);
    assert KeptCount(1, MaxMessages) == 1;
    var ms := Sanitize(AnArray(entries)).messages;
    assert |ms| == 1 && ms[0] == Message(Str("user"), "hi");
    assert ms == [Message(Str("user"), "hi")];
  }
}
