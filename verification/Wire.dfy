/**
 Repeated items in a byte string: n items in a row, each written by an encoder
 and read by a parser that consumes exactly what the encoder wrote.
 */
module Wire {
  import opened Bytes

  /** Overrun is a slice whose 32-bit end wraps around: the source panics there. */
  datatype Error = Truncated | UnknownKind | Trailing | Overrun

  datatype Parsed<+T> = Bad(error: Error) | Good(value: T, rest: bytes) {
    predicate IsFailure() {
      Bad?
    }

    function PropagateFailure<U>(): Parsed<U>
      requires Bad?
    {
      Bad(error)
    }

    function Extract(): (T, bytes)
      requires Good?
    {
      (value, rest)
    }
  }

  /** The next n bytes. */
  function Take(s: bytes, n: nat): Parsed<bytes> {
    if |s| < n then Bad(Truncated) else Good(s[..n], s[n..])
  }

  lemma TakeFront(a: bytes, rest: bytes)
    ensures Take(a + rest, |a|) == Good(a, rest)
  {
  }

  lemma TakeIsFront(s: bytes, n: nat)
    requires Take(s, n).Good?
    ensures |Take(s, n).value| == n && Take(s, n).value + Take(s, n).rest == s
  {
  }

  function EncodeAll<T>(enc: T -> bytes, xs: seq<T>): bytes {
    if xs == [] then [] else enc(xs[0]) + EncodeAll(enc, xs[1..])
  }

  function Prepend<T>(front: seq<T>, p: Parsed<seq<T>>): Parsed<seq<T>> {
    match p
    case Bad(e) => Bad(e)
    case Good(xs, rest) => Good(front + xs, rest)
  }

  function ParseN<T>(parse: bytes -> Parsed<T>, s: bytes, n: nat): Parsed<seq<T>>
    decreases n
  {
    if n == 0 then Good([], s)
    else
      match parse(s)
      case Bad(e) => Bad(e)
      case Good(x, rest) => Prepend([x], ParseN(parse, rest, n - 1))
  }

  /** Reading an item undoes writing it, whatever follows. */
  ghost predicate ReadsBack<T(!new)>(enc: T -> bytes, parse: bytes -> Parsed<T>, ok: T -> bool) {
    forall x, rest: bytes :: ok(x) ==> parse(enc(x) + rest) == Good(x, rest)
  }

  /** Whatever is read is the writing of the item that was read. */
  ghost predicate WritesBack<T(!new)>(enc: T -> bytes, parse: bytes -> Parsed<T>, ok: T -> bool) {
    forall s: bytes :: parse(s).Good? ==> ok(parse(s).value) && enc(parse(s).value) + parse(s).rest == s
  }

  predicate AllOk<T>(ok: T -> bool, xs: seq<T>) {
    forall i :: 0 <= i < |xs| ==> ok(xs[i])
  }

  lemma {:induction false} ParseEncoded<T(!new)>(enc: T -> bytes, parse: bytes -> Parsed<T>, ok: T -> bool,
                                                 xs: seq<T>, rest: bytes)
    requires ReadsBack(enc, parse, ok) && AllOk(ok, xs)
    ensures ParseN(parse, EncodeAll(enc, xs) + rest, |xs|) == Good(xs, rest)
  {
    if xs == [] {
      assert EncodeAll(enc, xs) + rest == rest;
    } else {
      var tail := EncodeAll(enc, xs[1..]) + rest;
      ParseEncoded(enc, parse, ok, xs[1..], rest);
      assert EncodeAll(enc, xs) + rest == enc(xs[0]) + tail;
      assert [xs[0]] + xs[1..] == xs;
    }
  }

  lemma {:induction false} EncodeOfParsed<T(!new)>(enc: T -> bytes, parse: bytes -> Parsed<T>, ok: T -> bool,
                                                   s: bytes, n: nat)
    requires WritesBack(enc, parse, ok) && ParseN(parse, s, n).Good?
    ensures |ParseN(parse, s, n).value| == n && AllOk(ok, ParseN(parse, s, n).value)
    ensures EncodeAll(enc, ParseN(parse, s, n).value) + ParseN(parse, s, n).rest == s
    decreases n
  {
    if n > 0 {
      var x, mid := parse(s).value, parse(s).rest;
      EncodeOfParsed(enc, parse, ok, mid, n - 1);
      var tail := ParseN(parse, mid, n - 1);
      var xs := [x] + tail.value;
      assert ParseN(parse, s, n) == Good(xs, tail.rest);
      assert xs[1..] == tail.value;
      assert EncodeAll(enc, xs) + tail.rest == enc(x) + (EncodeAll(enc, tail.value) + tail.rest);
    }
  }

  lemma PrependTwice<T>(a: seq<T>, b: seq<T>, p: Parsed<seq<T>>)
    ensures Prepend(a, Prepend(b, p)) == Prepend(a + b, p)
  {
    if p.Good? {
      assert a + (b + p.value) == a + b + p.value;
    }
  }

  lemma PrependNothing<T>(p: Parsed<seq<T>>)
    ensures Prepend([], p) == p
  {
    if p.Good? {
      assert [] + p.value == p.value;
    }
  }

  /** One more item parsed at the front of the remaining input. */
  lemma ParseStep<T>(parse: bytes -> Parsed<T>, front: seq<T>, s: bytes, n: nat)
    requires n > 0 && parse(s).Good?
    ensures Prepend(front, ParseN(parse, s, n))
         == Prepend(front + [parse(s).value], ParseN(parse, parse(s).rest, n - 1))
  {
    PrependTwice(front, [parse(s).value], ParseN(parse, parse(s).rest, n - 1));
  }
}
