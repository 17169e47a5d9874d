/** Values as the request handlers and the in-memory store see them. */
module JsValues {

  /** A request field, statement parameter or row field: absent (`undefined`) or a string. */
  datatype JsValue = Undefined | Str(text: string)

  /** JavaScript truthiness on these values: `undefined` and the empty string are falsy. */
  predicate Falsy(v: JsValue) {
    v == Undefined || v == Str("")
  }

  /** Element `i` of a parameter list, `undefined` past its end, as array destructuring gives it. */
  function At(values: seq<JsValue>, i: nat): JsValue {
    if i < |values| then values[i] else Undefined
  }

  datatype Option<T> = None | Some(value: T)
}

/** Facts about sequences shared by the store and the table view. */
module Seqs {

  /** `a` is obtained from `b` by deleting some elements, keeping the order of the rest. */
  predicate IsSubsequence<T(==)>(a: seq<T>, b: seq<T>)
    decreases |b|
  {
    a == [] || (b != [] && ((a[0] == b[0] && IsSubsequence(a[1..], b[1..])) || IsSubsequence(a, b[1..])))
  }

  lemma {:induction false} SubsequenceLength<T>(a: seq<T>, b: seq<T>)
    requires IsSubsequence(a, b)
    ensures |a| <= |b|
    decreases |b|
  {
    if a != [] {
      if a[0] == b[0] && IsSubsequence(a[1..], b[1..]) {
        SubsequenceLength(a[1..], b[1..]);
      } else {
        SubsequenceLength(a, b[1..]);
      }
    }
  }

  /** Keeping the head of `b` extends a subsequence of its tail. */
  lemma ConsSubsequence<T>(x: T, a: seq<T>, b: seq<T>)
    requires IsSubsequence(a, b)
    ensures IsSubsequence([x] + a, [x] + b)
  {
    assert ([x] + a)[1..] == a;
    assert ([x] + b)[1..] == b;
  }

  /** Dropping the head of `b` keeps a subsequence of its tail a subsequence. */
  lemma SkipSubsequence<T>(x: T, a: seq<T>, b: seq<T>)
    requires IsSubsequence(a, b)
    ensures IsSubsequence(a, [x] + b)
  {
    assert ([x] + b)[1..] == b;
  }
}
