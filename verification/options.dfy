/** Optional values, the JavaScript truthiness tests the route applies to
    them, and the null filter applied to the per-candidate results. */
module Options {

  /** A value that may be `null` or `undefined` in the route's JavaScript. */
  datatype Option<+T> = None | Some(value: T) {

    /** `x ?? fallback`: the value when present, otherwise the fallback. */
    function GetOr(fallback: T): T {
      match this
      case Some(v) => v
      case None => fallback
    }
  }

  /** A string field is truthy: present and not the empty string. */
  predicate Present(s: Option<string>) {
    s.Some? && s.value != ""
  }

  /** JavaScript `s || fallback` on an optional string. */
  function OrElse(s: Option<string>, fallback: string): (r: string)
    ensures Present(s) ==> r == s.value
    ensures !Present(s) ==> r == fallback
  {
    if Present(s) then s.value else fallback
  }

  /** `items.filter(item => item !== null)`: the present values, in order. */
  function DropNulls<T(!new)>(s: seq<Option<T>>): (r: seq<T>)
    ensures |r| <= |s|
    ensures forall x :: x in r <==> Some(x) in s
  {
    if s == [] then []
    else
      var rest := DropNulls(s[1..]);
      assert forall x :: Some(x) in s <==> Some(x) == s[0] || Some(x) in s[1..];
      match s[0]
      case None => rest
      case Some(x) => [x] + rest
  }

  /** The filter distributes over concatenation, so it keeps the input order. */
  lemma {:induction false} DropNullsAppend<T(!new)>(a: seq<Option<T>>, b: seq<Option<T>>)
    ensures DropNulls(a + b) == DropNulls(a) + DropNulls(b)
  {
    if a == [] {
      assert a + b == b;
    } else {
      assert (a + b)[1..] == a[1..] + b;
      DropNullsAppend(a[1..], b);
    }
  }

  /** Removing a null entry leaves the filtered list unchanged. */
  lemma DropNullsSkipNull<T(!new)>(s: seq<Option<T>>, j: nat)
    requires j < |s| && s[j] == None
    ensures DropNulls(s) == DropNulls(s[..j] + s[j + 1..])
  {
    assert s == (s[..j] + [None]) + s[j + 1..];
    DropNullsAppend(s[..j] + [None], s[j + 1..]);
    DropNullsAppend(s[..j], [None]);
    DropNullsAppend(s[..j], s[j + 1..]);
  }
}
