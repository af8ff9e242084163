/**
 * Files made of self-delimiting items. The log, the acknowledgement file and the overflow file are
 * all of this kind: items are written one after the other, and a reader decodes from the front
 * until it meets bytes that are not a whole item.
 */
module PrefixCode {
  import opened Options
  import opened BigEndian

  /** A format: how to write an item, how to read one off the front, and which items it can hold. */
  datatype Format<!T> = Format(
    encode: T -> seq<byte>,
    decode: seq<byte> -> Option<(T, seq<byte>)>,
    fits: T -> bool)

  /** Reading inverts writing, whatever follows; writing inverts reading; an item is never empty. */
  ghost predicate Lawful<T(!new)>(f: Format<T>) {
    && (forall x, tail :: f.fits(x) ==> f.decode(f.encode(x) + tail) == Some((x, tail)))
    && (forall input :: f.decode(input).Some? ==>
      && f.fits(f.decode(input).value.0)
      && f.encode(f.decode(input).value.0) + f.decode(input).value.1 == input)
    && (forall x :: |f.encode(x)| > 0)
  }

  ghost predicate AllFit<T(!new)>(f: Format<T>, xs: seq<T>) {
    forall i :: 0 <= i < |xs| ==> f.fits(xs[i])
  }

  function Encode<T>(f: Format<T>, xs: seq<T>): seq<byte> {
    if xs == [] then [] else f.encode(xs[0]) + Encode(f, xs[1..])
  }

  /** The items a read loop sees before it stops. The length test is always true of a lawful format. */
  function Parse<T>(f: Format<T>, input: seq<byte>): seq<T>
    decreases |input|
  {
    var d := f.decode(input);
    if d.Some? && |d.value.1| < |input| then [d.value.0] + Parse(f, d.value.1) else []
  }

  /** The bytes a read loop leaves unread. */
  function Remainder<T>(f: Format<T>, input: seq<byte>): seq<byte>
    decreases |input|
  {
    var d := f.decode(input);
    if d.Some? && |d.value.1| < |input| then Remainder(f, d.value.1) else input
  }

  lemma ConcatAssoc(a: seq<byte>, b: seq<byte>, c: seq<byte>)
    ensures a + b + c == a + (b + c)
  {
  }

  lemma {:induction false} EncodeAppend<T>(f: Format<T>, xs: seq<T>, ys: seq<T>)
    ensures Encode(f, xs + ys) == Encode(f, xs) + Encode(f, ys)
  {
    if xs == [] {
      assert xs + ys == ys;
    } else {
      EncodeAppend(f, xs[1..], ys);
      assert (xs + ys)[1..] == xs[1..] + ys;
      ConcatAssoc(f.encode(xs[0]), Encode(f, xs[1..]), Encode(f, ys));
    }
  }

  lemma EncodeOne<T>(f: Format<T>, x: T)
    ensures Encode(f, [x]) == f.encode(x)
  {
    assert [x][1..] == [];
  }

  lemma EncodeSnoc<T>(f: Format<T>, xs: seq<T>, x: T)
    ensures Encode(f, xs + [x]) == Encode(f, xs) + f.encode(x)
  {
    EncodeAppend(f, xs, [x]);
    EncodeOne(f, x);
  }

  lemma DecodeFront<T(!new)>(f: Format<T>, x: T, tail: seq<byte>)
    requires Lawful(f) && f.fits(x)
    ensures Parse(f, f.encode(x) + tail) == [x] + Parse(f, tail)
    ensures Remainder(f, f.encode(x) + tail) == Remainder(f, tail)
  {
    assert f.decode(f.encode(x) + tail) == Some((x, tail));
  }

  /** Writing then reading: the items come back, then the loop goes on with what follows them. */
  lemma {:induction false} ParseEncoded<T(!new)>(f: Format<T>, xs: seq<T>, tail: seq<byte>)
    requires Lawful(f) && AllFit(f, xs)
    ensures Parse(f, Encode(f, xs) + tail) == xs + Parse(f, tail)
    ensures Remainder(f, Encode(f, xs) + tail) == Remainder(f, tail)
  {
    hide Lawful, Parse, Remainder;
    if xs == [] {
      assert Encode(f, xs) + tail == tail;
    } else {
      ParseEncoded(f, xs[1..], tail);
      ConcatAssoc(f.encode(xs[0]), Encode(f, xs[1..]), tail);
      DecodeFront(f, xs[0], Encode(f, xs[1..]) + tail);
      assert xs + Parse(f, tail) == [xs[0]] + (xs[1..] + Parse(f, tail));
    }
  }

  lemma ParseNothing<T(!new)>(f: Format<T>)
    requires Lawful(f)
    ensures Parse(f, []) == [] && Remainder(f, []) == []
  {
  }

  lemma ParseWhole<T(!new)>(f: Format<T>, xs: seq<T>)
    requires Lawful(f) && AllFit(f, xs)
    ensures Parse(f, Encode(f, xs)) == xs
    ensures Remainder(f, Encode(f, xs)) == []
  {
    ParseEncoded(f, xs, []);
    ParseNothing(f);
    assert Encode(f, xs) + [] == Encode(f, xs);
  }

  /** Reading then writing: any bytes at all are the parsed items followed by the unread rest. */
  lemma {:induction false} EncodeParsed<T(!new)>(f: Format<T>, input: seq<byte>)
    requires Lawful(f)
    ensures AllFit(f, Parse(f, input))
    ensures input == Encode(f, Parse(f, input)) + Remainder(f, input)
    ensures f.decode(Remainder(f, input)).None?
    decreases |input|
  {
    var d := f.decode(input);
    if d.Some? {
      var (x, rest) := d.value;
      EncodeParsed(f, rest);
      assert Parse(f, input)[1..] == Parse(f, rest);
      ConcatAssoc(f.encode(x), Encode(f, Parse(f, rest)), Remainder(f, rest));
    }
  }

  /** An item decoded from a prefix of an encoded item can only be that item, whole. */
  lemma DecodablePrefix<T(!new)>(f: Format<T>, x: T, k: nat)
    requires Lawful(f) && f.fits(x) && k <= |f.encode(x)|
    requires f.decode(f.encode(x)[..k]).Some?
    ensures k == |f.encode(x)|
  {
    var whole := f.encode(x);
    var (y, rest) := f.decode(whole[..k]).value;
    var suffix := whole[k..];
    ConcatAssoc(f.encode(y), rest, suffix);
    assert whole == whole[..k] + suffix;
    assert f.decode(f.encode(y) + (rest + suffix)) == Some((y, rest + suffix));
    assert whole == whole + [];
    assert f.decode(f.encode(x) + []) == Some((x, []));
    assert |rest + suffix| == 0;
  }

  /** No proper prefix of an item is an item. */
  lemma TornItem<T(!new)>(f: Format<T>, x: T, k: nat)
    requires Lawful(f) && f.fits(x) && k < |f.encode(x)|
    ensures f.decode(f.encode(x)[..k]).None?
  {
    if f.decode(f.encode(x)[..k]).Some? {
      DecodablePrefix(f, x, k);
    }
  }

  /** `n` counts the items of `xs` whose encoding lies wholly within the first `k` bytes. */
  ghost predicate WhollyBefore<T>(f: Format<T>, xs: seq<T>, k: nat, n: nat) {
    && n <= |xs|
    && |Encode(f, xs[..n])| <= k
    && (n < |xs| ==> k < |Encode(f, xs[..n + 1])|)
  }

  lemma EncodePrefix<T>(f: Format<T>, xs: seq<T>, n: nat)
    requires n < |xs|
    ensures Encode(f, xs[..n + 1]) == f.encode(xs[0]) + Encode(f, xs[1..][..n])
  {
    assert xs[..n + 1][1..] == xs[1..][..n];
  }

  /**
   * Torn tail. Cut the file anywhere: the read loop returns the longest run of items that lie
   * wholly before the cut, and nothing else.
   */
  lemma {:induction false} TornTail<T(!new)>(f: Format<T>, xs: seq<T>, k: nat)
    requires Lawful(f) && AllFit(f, xs) && k <= |Encode(f, xs)|
    ensures var n := |Parse(f, Encode(f, xs)[..k])|;
      WhollyBefore(f, xs, k, n) && Parse(f, Encode(f, xs)[..k]) == xs[..n]
  {
    hide Lawful;
    if xs == [] {
      ParseNothing(f);
    } else if k < |f.encode(xs[0])| {
      assert Encode(f, xs)[..k] == f.encode(xs[0])[..k];
      TornItem(f, xs[0], k);
      EncodePrefix(f, xs, 0);
    } else {
      var k' := k - |f.encode(xs[0])|;
      var inner := Encode(f, xs[1..])[..k'];
      TornTail(f, xs[1..], k');
      assert Encode(f, xs)[..k] == f.encode(xs[0]) + inner;
      DecodeFront(f, xs[0], inner);
      var n' := |Parse(f, inner)|;
      assert xs[..n' + 1] == [xs[0]] + xs[1..][..n'];
      EncodePrefix(f, xs, n');
      if n' + 1 < |xs| {
        EncodePrefix(f, xs, n' + 1);
      }
    }
  }

  /** Cuts that keep the first `m` items keep them in what is read back. */
  lemma TornTailKeeps<T(!new)>(f: Format<T>, xs: seq<T>, m: nat, k: nat)
    requires Lawful(f) && AllFit(f, xs) && m <= |xs|
    requires |Encode(f, xs[..m])| <= k <= |Encode(f, xs)|
    ensures var n := |Parse(f, Encode(f, xs)[..k])|;
      m <= n <= |xs| && Parse(f, Encode(f, xs)[..k]) == xs[..n]
  {
    TornTail(f, xs, k);
    var n := |Parse(f, Encode(f, xs)[..k])|;
    if n < m {
      assert xs[..m] == xs[..n + 1] + xs[n + 1..m];
      EncodeAppend(f, xs[..n + 1], xs[n + 1..m]);
    }
  }

  // ---- Appending to a file that was reopened ------------------------------------------------

  /** An item appended to these bytes is read back as written, behind what was readable before. */
  predicate Survives<T(==)>(f: Format<T>, input: seq<byte>, x: T) {
    Parse(f, input + f.encode(x)) == Parse(f, input) + [x]
  }

  lemma AppendWhole<T(!new)>(f: Format<T>, input: seq<byte>, x: T)
    requires Lawful(f) && f.fits(x) && Remainder(f, input) == []
    ensures Parse(f, input + f.encode(x)) == Parse(f, input) + [x]
    ensures Remainder(f, input + f.encode(x)) == []
  {
    EncodeParsed(f, input);
    var xs := Parse(f, input);
    assert Encode(f, xs) + [] == Encode(f, xs);
    EncodeSnoc(f, xs, x);
    ParseWhole(f, xs + [x]);
  }

  /** Bytes that parse to one item are that item and a rest without any. */
  lemma ParseOne<T(!new)>(f: Format<T>, input: seq<byte>, x: T)
    requires Lawful(f) && f.fits(x)
    ensures Parse(f, input) == [x] <==>
      f.encode(x) <= input && f.decode(input[|f.encode(x)|..]).None?
  {
    var e := f.encode(x);
    if Parse(f, input) == [x] {
      EncodeParsed(f, input);
      EncodeOne(f, x);
      assert input == e + Remainder(f, input);
    }
    if e <= input {
      assert input == e + input[|e|..];
      DecodeFront(f, x, input[|e|..]);
    }
  }

  /**
   * What becomes of an item that is appended behind a torn tail: it is read back as written exactly
   * when tail and item together start with the item again and nothing is decoded after that.
   */
  lemma AppendTornIff<T(!new)>(f: Format<T>, input: seq<byte>, x: T)
    requires Lawful(f) && f.fits(x) && Remainder(f, input) != []
    ensures var after := Remainder(f, input) + f.encode(x);
      Survives(f, input, x) <==>
        f.encode(x) <= after && f.decode(after[|f.encode(x)|..]).None?
  {
    EncodeParsed(f, input);
    var seen, torn := Parse(f, input), Remainder(f, input);
    var after := torn + f.encode(x);
    hide Lawful, Parse, Remainder;
    ParseEncoded(f, seen, after);
    ConcatAssoc(Encode(f, seen), torn, f.encode(x));
    assert (seen + Parse(f, after))[|seen|..] == Parse(f, after);
    assert (seen + [x])[|seen|..] == [x];
    ParseOne(f, after, x);
  }

  /** An item survives behind a torn tail only if the tail is shorter and its bytes repeat with the tail's length. */
  lemma SurvivorRepeats<T(!new)>(f: Format<T>, input: seq<byte>, x: T)
    requires Lawful(f) && f.fits(x) && Remainder(f, input) != []
    requires Survives(f, input, x)
    ensures var p, e := |Remainder(f, input)|, f.encode(x);
      0 < p < |e| && forall i :: p <= i < |e| ==> e[i] == e[i - p]
  {
    AppendTornIff(f, input, x);
    EncodeParsed(f, input);
    var torn, e := Remainder(f, input), f.encode(x);
    var after := torn + e;
    if |torn| >= |e| {
      assert torn == e + torn[|e|..];
      DecodeFront(f, x, torn[|e|..]);
      assert false;
    }
    forall i | |torn| <= i < |e| ensures e[i] == e[i - |torn|] {
      assert after[i] == e[i];
    }
  }

  /** Of the items that differ in their last byte only, at most one survives behind a torn tail. */
  lemma OneSurvivor<T(!new)>(f: Format<T>, input: seq<byte>, x: T, y: T)
    requires Lawful(f) && f.fits(x) && f.fits(y) && Remainder(f, input) != []
    requires |f.encode(x)| == |f.encode(y)|
    requires forall i :: 0 <= i < |f.encode(x)| - 1 ==> f.encode(x)[i] == f.encode(y)[i]
    requires Survives(f, input, x) && Survives(f, input, y)
    ensures f.encode(x) == f.encode(y)
  {
    hide Lawful, Parse, Remainder;
    SurvivorRepeats(f, input, x);
    SurvivorRepeats(f, input, y);
    var n, p := |f.encode(x)|, |Remainder(f, input)|;
    assert f.encode(x)[n - 1] == f.encode(x)[n - 1 - p];
    assert f.encode(y)[n - 1] == f.encode(y)[n - 1 - p];
  }
}
