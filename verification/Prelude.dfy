/** Outcome types shared by the modules: a result that may be missing, and the error returns of the source. */
module Prelude {
  datatype Option<+T> = None | Some(value: T)

  datatype Result<+T, +E> = Ok(value: T) | Err(error: E)

  function Min(a: int, b: int): int { if a < b then a else b }

  // The identifier shape accepted by validIdent (adapter) and validateIdent (queryplan).
  predicate IdentStart(c: char) { 'a' <= c <= 'z' || 'A' <= c <= 'Z' || c == '_' }

  predicate IdentPart(c: char) { IdentStart(c) || '0' <= c <= '9' }

  predicate ValidIdent(s: string)
  {
    1 <= |s| <= 63 && IdentStart(s[0]) && forall i :: 0 < i < |s| ==> IdentPart(s[i])
  }

  // ASCII letters, digits and underscores, at most 63 of them, the first one no digit.
  lemma ValidIdentIsPlain(s: string)
    ensures ValidIdent(s) <==>
      && 0 < |s| < 64 && !(0x30 <= s[0] as int <= 0x39)
      && forall i :: 0 <= i < |s| ==>
           var c := s[i] as int; 0x61 <= c <= 0x7A || 0x41 <= c <= 0x5A || 0x30 <= c <= 0x39 || c == 0x5F
  {
    if ValidIdent(s) {
      assert forall i :: 0 < i < |s| ==> IdentPart(s[i]);
    }
  }

  lemma MultisetTail<T>(s: seq<T>)
    requires s != []
    ensures multiset(s[1..]) == multiset(s) - multiset{s[0]}
  {
    assert s == [s[0]] + s[1..];
  }
}
