/**
 * Vocabulary shared by the whole chat server model: identifiers, timestamps,
 * the optional value, the HTTP-style reply of a controller, and the JavaScript
 * string operations the controllers rely on (`trim`, `startsWith`, `includes`).
 */
module Common {

  /** A MongoDB ObjectId. Two ids are equal exactly when their `toString()` forms are. */
  type Id = nat
  type UserId = Id
  type ConversationId = Id
  type MessageId = Id
  type RequestId = Id

  /** Milliseconds since the epoch, as held by a JavaScript `Date`. */
  type Time = int

  datatype Option<+T> = None | Some(value: T) {
    function GetOr(default: T): T {
      match this
      case Some(v) => v
      case None => default
    }
  }

  /** The outcome of a step that may throw: a value, or the message of the error it threw. */
  datatype Result<+T> = Success(value: T) | Failure(error: string)

  /**
   * What an Express handler sends back: a success status with a body, an error
   * status with a `message`, or an exception that escapes the handler (the
   * handler's own `catch` rethrows it, so the handler itself sends nothing).
   */
  datatype Reply<+T> =
    | Ok(status: nat, value: T)
    | Err(status: nat, message: string)
    | Thrown(message: string)

  /** Each id occurs at most once. */
  predicate Distinct(ids: seq<Id>) {
    forall i, j | 0 <= i < j < |ids| :: ids[i] != ids[j]
  }

  /** `if (!list.includes(x)) list.push(x)`: `x` joins the list at the end unless it is already there. */
  function Adjoin(ids: seq<Id>, x: Id): (r: seq<Id>)
    ensures x in r
    ensures forall y :: y in r <==> y in ids || y == x
    ensures x in ids ==> r == ids
    ensures x !in ids ==> r == ids + [x]
    ensures Distinct(ids) ==> Distinct(r)
  {
    if x in ids then ids else ids + [x]
  }

  /** Adjoining the same id twice is adjoining it once. */
  lemma AdjoinIdempotent(ids: seq<Id>, x: Id)
    ensures Adjoin(Adjoin(ids, x), x) == Adjoin(ids, x)
  {
  }

  // ---------------------------------------------------------------------------
  // JavaScript `String.prototype.trim`
  // ---------------------------------------------------------------------------

  /** The WhiteSpace and LineTerminator code points that `trim` removes (ECMAScript 2023, sections 12.2 and 12.3). */
  predicate IsSpace(c: char) {
    c == '\t' || c == '\n' || c == '\U{000B}' || c == '\U{000C}' || c == '\r' || c == ' '
    || c == '\U{00A0}' || c == '\U{1680}' || ('\U{2000}' <= c <= '\U{200A}')
    || c == '\U{2028}' || c == '\U{2029}' || c == '\U{202F}' || c == '\U{205F}'
    || c == '\U{3000}' || c == '\U{FEFF}'
  }

  predicate AllSpace(s: string) {
    forall i | 0 <= i < |s| :: IsSpace(s[i])
  }

  /** Drops the leading white space: what is dropped is all space, and what is left starts with a non-space. */
  function TrimStart(s: string): (r: string)
    ensures |r| <= |s| && r == s[|s| - |r|..]
    ensures AllSpace(s[..|s| - |r|])
    ensures r != [] ==> !IsSpace(r[0])
  {
    if s != [] && IsSpace(s[0]) then TrimStart(s[1..]) else s
  }

  /** Drops the trailing white space: what is dropped is all space, and what is left ends with a non-space. */
  function TrimEnd(s: string): (r: string)
    ensures |r| <= |s| && r == s[..|r|]
    ensures AllSpace(s[|r|..])
    ensures r != [] ==> !IsSpace(r[|r| - 1])
  {
    if s != [] && IsSpace(s[|s| - 1]) then TrimEnd(s[..|s| - 1]) else s
  }

  /**
   * `s.trim()`: the text between the leading and the trailing white space.
   * The result is empty exactly when `s` is nothing but white space.
   */
  function Trim(s: string): (r: string)
    ensures |r| <= |s|
    ensures r != [] ==> !IsSpace(r[0]) && !IsSpace(r[|r| - 1])
    ensures r == [] <==> AllSpace(s)
  {
    var t := TrimStart(s);
    var r := TrimEnd(t);
    assert r != [] ==> r[0] == t[0];
    assert r == [] ==> AllSpace(t) && s == s[..|s| - |t|] + t;
    r
  }

  /** Trimming twice is trimming once. */
  lemma {:induction false} TrimIdempotent(s: string)
    ensures Trim(Trim(s)) == Trim(s)
  {
    var r := Trim(s);
    if r != [] {
      assert TrimStart(r) == r;
      assert TrimEnd(r) == r;
    }
  }

  /** `s.startsWith(p)`. */
  predicate StartsWith(s: string, p: string) {
    |p| <= |s| && s[..|p|] == p
  }

  predicate OccursAt(s: string, p: string, i: int) {
    0 <= i <= |s| - |p| && s[i..i + |p|] == p
  }

  /** `s.includes(p)`: `p` occurs in `s` at some position. */
  predicate Includes(s: string, p: string) {
    exists i | 0 <= i <= |s| - |p| :: OccursAt(s, p, i)
  }

  /** A non-empty pattern cannot occur in a text that lacks its first character. */
  lemma {:induction false} NotIncludedWithoutFirstChar(s: string, p: string)
    requires p != []
    requires forall i | 0 <= i < |s| :: s[i] != p[0]
    ensures !Includes(s, p)
  {
    forall i | 0 <= i <= |s| - |p|
      ensures !OccursAt(s, p, i)
    {
      assert s[i..i + |p|][0] == s[i];
    }
  }
}
