/** Values shared by every part of the model: optional values, the failure kinds
    a handler can raise, and the ASCII case folding and case-insensitive order
    that the server uses for component names. */
module Common {

  datatype Option<+T> = None | Some(value: T)

  /** A failure raised by a handler. `Warning` and `Error` are the bot's own
      recoverable exception kinds (BotWarningException, BotErrorException);
      `MissingPermission` is the failure of the bot's capability check on a
      channel, taken to be one of the bot's own exception kinds; `Internal` is any other exception (an index out of bounds, a
      null dereference). */
  datatype Failure =
    | Warning(text: string)
    | Error(text: string)
    | MissingPermission(permission: string)
    | Internal

  /** True for the failures that are the bot's own exception kinds. */
  predicate IsBotException(f: Failure) {
    f.Warning? || f.Error? || f.MissingPermission?
  }

  function LowerChar(c: char): (r: char)
    ensures 'A' <= c <= 'Z' ==> 'a' <= r <= 'z'
    ensures !('A' <= c <= 'Z') ==> r == c
  {
    if 'A' <= c <= 'Z' then (c as int + 32) as char else c
  }

  function UpperChar(c: char): (r: char)
    ensures 'a' <= c <= 'z' ==> 'A' <= r <= 'Z'
    ensures !('a' <= c <= 'z') ==> r == c
  {
    if 'a' <= c <= 'z' then (c as int - 32) as char else c
  }

  /** String.toLowerCase restricted to ASCII letters. */
  function Lower(s: string): (r: string)
    ensures |r| == |s|
  {
    if s == [] then [] else [LowerChar(s[0])] + Lower(s[1..])
  }

  /** Lower-casing twice is lower-casing once. */
  lemma {:induction false} LowerIdempotent(s: string)
    ensures Lower(Lower(s)) == Lower(s)
  {
    if s != [] {
      var l := Lower(s);
      assert l[1..] == Lower(s[1..]);
      LowerIdempotent(s[1..]);
      assert Lower(l) == [LowerChar(l[0])] + Lower(l[1..]);
    }
  }

  /** Lexicographic order on strings, comparing characters by code point. */
  predicate LexLeq(a: string, b: string)
    decreases |a|
  {
    a == [] || (b != [] && (a[0] < b[0] || (a[0] == b[0] && LexLeq(a[1..], b[1..]))))
  }

  lemma {:induction false} LexLeqTotal(a: string, b: string)
    ensures LexLeq(a, b) || LexLeq(b, a)
    decreases |a|
  {
    if a != [] && b != [] && a[0] == b[0] {
      LexLeqTotal(a[1..], b[1..]);
    }
  }

  lemma {:induction false} LexLeqTransitive(a: string, b: string, c: string)
    requires LexLeq(a, b) && LexLeq(b, c)
    ensures LexLeq(a, c)
    decreases |a|
  {
    if a != [] && a[0] == b[0] && b[0] == c[0] {
      LexLeqTransitive(a[1..], b[1..], c[1..]);
    }
  }

  /** String.CASE_INSENSITIVE_ORDER for ASCII text: the lexicographic order of
      the lower-cased strings. */
  predicate CaseInsensitiveLeq(a: string, b: string) {
    LexLeq(Lower(a), Lower(b))
  }

  lemma CaseInsensitiveTotal(a: string, b: string)
    ensures CaseInsensitiveLeq(a, b) || CaseInsensitiveLeq(b, a)
  {
    LexLeqTotal(Lower(a), Lower(b));
  }

  lemma CaseInsensitiveTransitive(a: string, b: string, c: string)
    requires CaseInsensitiveLeq(a, b) && CaseInsensitiveLeq(b, c)
    ensures CaseInsensitiveLeq(a, c)
  {
    LexLeqTransitive(Lower(a), Lower(b), Lower(c));
  }

  /** Boolean.parseBoolean: true exactly for "true" in any letter case. */
  predicate ParseBoolean(s: string) {
    Lower(s) == "true"
  }
}
