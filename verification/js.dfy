/**
 * The few JavaScript value rules the handlers depend on: truthiness of
 * optional strings and ids, `a || b` on strings, `slice(0, n)`, and the HTTP
 * method of a request.
 */
module Js {
  import opened Wrappers

  /** An optional string is truthy when it is present and not empty. */
  predicate Truthy(s: Option<string>) {
    s.Some? && s.value != ""
  }

  /** A numeric id is truthy when it is present and not zero. */
  predicate TruthyId(id: Option<int>) {
    id.Some? && id.value != 0
  }

  /** JavaScript's `s || fallback` for an optional string. */
  function OrElse(s: Option<string>, fallback: string): (r: string)
    ensures Truthy(s) ==> r == s.value
    ensures !Truthy(s) ==> r == fallback
  {
    if Truthy(s) then s.value else fallback
  }

  /** `xs.slice(0, n)`: the first `n` elements, or all of them when there are fewer. */
  function Slice<T>(xs: seq<T>, n: nat): (r: seq<T>)
    ensures |r| <= n && r <= xs
    ensures |xs| >= n ==> |r| == n
    ensures |xs| <= n ==> r == xs
  {
    if |xs| <= n then xs else xs[..n]
  }

  /** Slicing before appending does not change the sliced result. */
  lemma SliceAppend<T>(a: seq<T>, b: seq<T>, n: nat)
    ensures Slice(Slice(a, n) + b, n) == Slice(a + b, n)
  {
    if |a| > n {
      assert (a[..n] + b)[..n] == a[..n];
      assert (a + b)[..n] == a[..n];
    } else {
      assert Slice(a, n) == a;
    }
  }

  /**
   * The HTTP method of a request. The handlers compare `req.method` with
   * "GET", "POST" and "DELETE"; `Other` carries every other name, so a
   * request's method is always read through `MethodOf`.
   */
  datatype Method = Get | Post | Delete | Other(name: string)

  /** The text of `req.method`. */
  function MethodName(m: Method): string {
    match m
    case Get => "GET"
    case Post => "POST"
    case Delete => "DELETE"
    case Other(name) => name
  }

  /** The three names the handlers test for. */
  predicate Known(name: string) {
    name == "GET" || name == "POST" || name == "DELETE"
  }

  /** Reads `req.method`: the three tested names, and every other name as `Other`. */
  function MethodOf(name: string): (m: Method)
    ensures MethodName(m) == name
    ensures m.Other? <==> !Known(name)
  {
    if name == "GET" then Get
    else if name == "POST" then Post
    else if name == "DELETE" then Delete
    else Other(name)
  }

  /** A method as `MethodOf` produces it: `Other` never carries a tested name. */
  predicate Normalised(m: Method) {
    m.Other? ==> !Known(m.name)
  }

  /** Reading a normalised method's name gives the method back. */
  lemma MethodRoundTrip(m: Method)
    requires Normalised(m)
    ensures MethodOf(MethodName(m)) == m
  {
  }
}
