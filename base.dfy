/**
 * Java-level building blocks shared by every module of the model: nullable
 * references, exceptions as values, the rendering of a nullable String by
 * string concatenation, and the `StringUtil.join` helper together with the
 * splitting that undoes it.
 */
module Base {

  /** A nullable reference: `None` stands for Java's `null`. */
  datatype Option<+T> = None | Some(value: T)

  /** A `java.lang.String` reference, which may be `null`. */
  type JString = Option<string>

  /** The exceptions the modelled code raises, named after their Java classes. */
  datatype Exception =
    | IllegalStateException(message: string)
    | IllegalArgumentException(message: string)
    | NullPointerException
    | ClassCastException
    | Forbidden(message: string)
    | ServiceUnavailable

  /** The completion of a Java call: it returns a value or throws. */
  datatype Outcome<T> = Returned(value: T) | Thrown(exception: Exception)

  /** What `"..." + s` appends for a String reference `s`: its text, or "null". */
  function Show(s: JString): string
  {
    match s
    case None => "null"
    case Some(text) => text
  }

  /** `Boolean.toString`. */
  function BooleanToString(b: bool): (r: string)
    ensures r == "true" || r == "false"
    ensures (r == "true") == b
  {
    if b then "true" else "false"
  }

  /** `StringUtil.join(sep, parts)`: the parts in order, with `sep` between neighbours. */
  function Join(sep: string, parts: seq<string>): string
  {
    if |parts| == 0 then ""
    else if |parts| == 1 then parts[0]
    else parts[0] + sep + Join(sep, parts[1..])
  }

  /** The index of the first `c` in `s`, or `|s|` when there is none. */
  function FirstIndexOf(s: string, c: char): (k: nat)
    ensures k <= |s|
  {
    if s == [] then 0
    else if s[0] == c then 0
    else 1 + FirstIndexOf(s[1..], c)
  }

  /** Text free of `c` followed by text starting with `c`: the first `c` is where the text ends. */
  lemma {:induction false} FirstIndexAfter(c: char, a: string, x: string)
    requires c !in a
    requires |x| > 0 && x[0] == c
    ensures FirstIndexOf(a + x, c) == |a|
  {
    if a != [] {
      assert (a + x)[0] == a[0];
      assert (a + x)[1..] == a[1..] + x;
      FirstIndexAfter(c, a[1..], x);
    }
  }

  /**
   * Text free of `c`, followed by text that starts with `c`, can be told
   * apart on its own: the first `c` marks where the first part ends.
   */
  lemma SplitAtFirst(c: char, a: string, x: string, b: string, y: string)
    requires c !in a && c !in b
    requires |x| > 0 && x[0] == c && |y| > 0 && y[0] == c
    requires a + x == b + y
    ensures a == b && x == y
  {
    FirstIndexAfter(c, a, x);
    FirstIndexAfter(c, b, y);
    assert a == (a + x)[..|a|] == (b + y)[..|b|] == b;
    assert x == (a + x)[|a|..] == (b + y)[|b|..] == y;
  }

  /** Joining a first part onto a non-empty rest puts one separator between them. */
  lemma JoinCons(sep: string, x: string, rest: seq<string>)
    requires |rest| > 0
    ensures Join(sep, [x] + rest) == x + sep + Join(sep, rest)
  {
    assert ([x] + rest)[1..] == rest;
  }

  /** The fields of `s` between occurrences of the character `c` (always at least one). */
  function Split(s: string, c: char): (r: seq<string>)
    ensures |r| > 0
  {
    if s == [] then [""]
    else
      var rest := Split(s[1..], c);
      if s[0] == c then [""] + rest
      else [[s[0]] + rest[0]] + rest[1..]
  }

  /** Text free of the separator glues onto the first field of what follows it. */
  lemma {:induction false} SplitPrepend(x: string, t: string, c: char)
    requires c !in x
    ensures Split(x + t, c) == [x + Split(t, c)[0]] + Split(t, c)[1..]
  {
    if x != [] {
      assert (x + t)[1..] == x[1..] + t;
      SplitPrepend(x[1..], t, c);
      assert [x[0]] + (x[1..] + Split(t, c)[0]) == x + Split(t, c)[0];
    } else {
      assert x + t == t;
      var r := Split(t, c);
      assert x + r[0] == r[0];
      assert [r[0]] + r[1..] == r;
    }
  }

  /**
   * Joining fields with a one-character separator that none of them contains
   * and splitting the result on that character gives the fields back.
   */
  lemma {:induction false} SplitJoin(parts: seq<string>, c: char)
    requires |parts| > 0
    requires forall i | 0 <= i < |parts| :: c !in parts[i]
    ensures Split(Join([c], parts), c) == parts
  {
    if |parts| == 1 {
      SplitPrepend(parts[0], "", c);
      assert parts[0] + "" == parts[0];
    } else {
      var rest := Join([c], parts[1..]);
      SplitJoin(parts[1..], c);
      assert Join([c], parts) == parts[0] + ([c] + rest);
      SplitPrepend(parts[0], [c] + rest, c);
      assert ([c] + rest)[1..] == rest;
      assert parts[0] + "" == parts[0];
      assert [parts[0]] + parts[1..] == parts;
    }
  }

  /** The results of `f` over `xs`, concatenated in order (a nested loop's `add`s). */
  function FlatMap<T, U>(xs: seq<T>, f: T -> seq<U>): seq<U>
  {
    if xs == [] then [] else FlatMap(xs[..|xs| - 1], f) + f(xs[|xs| - 1])
  }

  /** Flat-mapping a concatenation concatenates the results. */
  lemma {:induction false} FlatMapAppend<T, U>(a: seq<T>, b: seq<T>, f: T -> seq<U>)
    ensures FlatMap(a + b, f) == FlatMap(a, f) + FlatMap(b, f)
    decreases |b|
  {
    if b == [] {
      assert a + b == a;
    } else {
      var n := |b| - 1;
      assert (a + b)[..|a + b| - 1] == a + b[..n];
      FlatMapAppend(a, b[..n], f);
    }
  }

  /** An element of the result comes from some element of the input, and vice versa. */
  lemma {:induction false} FlatMapMember<T, U>(xs: seq<T>, f: T -> seq<U>, y: U)
    ensures y in FlatMap(xs, f) <==> exists i | 0 <= i < |xs| :: y in f(xs[i])
  {
    if xs != [] {
      var n := |xs| - 1;
      FlatMapMember(xs[..n], f, y);
      if y in FlatMap(xs[..n], f) {
        var i :| 0 <= i < n && y in f(xs[..n][i]);
        assert xs[i] == xs[..n][i];
      }
      if exists i | 0 <= i < |xs| :: y in f(xs[i]) {
        var i :| 0 <= i < |xs| && y in f(xs[i]);
        if i < n {
          assert xs[..n][i] == xs[i];
        }
      }
    }
  }

  /** Permuting the input permutes the result. */
  lemma {:induction false} FlatMapPermutation<T, U>(a: seq<T>, b: seq<T>, f: T -> seq<U>)
    requires multiset(a) == multiset(b)
    ensures multiset(FlatMap(a, f)) == multiset(FlatMap(b, f))
    decreases |a|
  {
    if a == [] {
      assert |b| == |multiset(b)|;
    } else {
      var n := |a| - 1;
      var x := a[n];
      assert x in multiset(b);
      var k :| 0 <= k < |b| && b[k] == x;
      var rest := b[..k] + b[k + 1..];
      assert b == b[..k] + [x] + b[k + 1..];
      assert a == a[..n] + [x];
      assert multiset(a[..n]) == multiset(a) - multiset{x};
      assert multiset(rest) == multiset(b) - multiset{x};
      FlatMapPermutation(a[..n], rest, f);
      FlatMapAppend(b[..k] + [x], b[k + 1..], f);
      FlatMapAppend(b[..k], [x], f);
      FlatMapAppend(b[..k], b[k + 1..], f);
      assert FlatMap([x], f) == f(x) by {
        assert [x][..0] == [];
      }
    }
  }
}
