// The byte-stream format of Annex B of ITU-T H.264: how NAL units are written one after the
// other with start codes, and the decoding process of section B.2 that finds them again.
module AnnexB {
  import opened Common

  // A NAL unit together with the kind of start code written in front of it.
  datatype Unit = Unit(long: bool, body: seq<uint8>)

  function StartCode(long: bool): seq<uint8> {
    if long then [0, 0, 0, 1] else [0, 0, 1]
  }

  function Serialize(units: seq<Unit>): seq<uint8> {
    if units == [] then [] else StartCode(units[0].long) + units[0].body + Serialize(units[1..])
  }

  function Bodies(units: seq<Unit>): seq<seq<uint8>> {
    seq(|units|, i requires 0 <= i < |units| => units[i].body)
  }

  // The same units, each behind a four-byte start code.
  function Lengthened(units: seq<Unit>): (r: seq<Unit>)
    ensures |r| == |units|
  {
    seq(|units|, i requires 0 <= i < |units| => Unit(true, units[i].body))
  }

  // A byte-aligned 00 00 00 or 00 00 01: what ends a NAL unit.
  predicate Delimits(s: seq<uint8>) {
    |s| >= 3 && s[0] == 0 && s[1] == 0 && s[2] <= 1
  }

  predicate StartsUnit(s: seq<uint8>) {
    |s| >= 3 && s[0] == 0 && s[1] == 0 && s[2] == 1
  }

  lemma DelimitersAre(s: seq<uint8>)
    ensures Delimits(s) <==> [0, 0, 0] <= s || [0, 0, 1] <= s
    ensures StartsUnit(s) <==> [0, 0, 1] <= s
  {
  }

  // NumBytesInNALunit: the bytes before the next delimiter, or before the end of the stream.
  function UnitLength(s: seq<uint8>): (n: nat)
    ensures n <= |s|
  {
    if s == [] || Delimits(s) then 0 else 1 + UnitLength(s[1..])
  }

  // The decoding process. A zero byte outside a NAL unit is leading_zero_8bits, zero_byte or
  // trailing_zero_8bits; any other byte there, or a NAL unit with no bytes, is malformed.
  function Decode(s: seq<uint8>): Option<seq<seq<uint8>>>
    decreases |s|
  {
    if s == [] then
      Some([])
    else if StartsUnit(s) then
      DecodeUnit(s[3..])
    else if s[0] == 0 then
      Decode(s[1..])
    else
      None
  }

  // From behind a start code prefix.
  function DecodeUnit(s: seq<uint8>): Option<seq<seq<uint8>>>
    decreases |s|
  {
    var n := UnitLength(s);
    if n == 0 then None else Prepend(s[..n], Decode(s[n..]))
  }

  function Prepend(unit: seq<uint8>, rest: Option<seq<seq<uint8>>>): Option<seq<seq<uint8>>> {
    match rest
    case None => None
    case Some(units) => Some([unit] + units)
  }

  // No 00 00 00 and no 00 00 01 inside; section 7.4.1 demands this and more.
  predicate Clean(body: seq<uint8>) {
    forall i :: 0 <= i < |body| ==> !Delimits(body[i..])
  }

  predicate EndsInZero(body: seq<uint8>) {
    |body| > 0 && body[|body| - 1] == 0
  }

  // Exactly what a list of units needs in order to be read back: only the last may end in 00.
  predicate Separable(units: seq<Unit>) {
    forall i :: 0 <= i < |units| ==>
      && units[i].body != []
      && Clean(units[i].body)
      && (i + 1 < |units| ==> !EndsInZero(units[i].body))
  }

  // What section 7.4.1 grants for every NAL unit, as far as decoding needs it.
  predicate WellFormed(body: seq<uint8>) {
    body != [] && Clean(body) && !EndsInZero(body)
  }

  lemma {:induction false} SerializeAppend(a: seq<Unit>, b: seq<Unit>)
    ensures Serialize(a + b) == Serialize(a) + Serialize(b)
  {
    if a == [] {
      assert a + b == b;
    } else {
      assert (a + b)[1..] == a[1..] + b;
      SerializeAppend(a[1..], b);
    }
  }

  // The unit in front of `rest` is read back whole exactly when its body is clean and, if
  // anything follows, does not end in a zero; it is never read too long.
  lemma {:induction false} UnitLengthOf(body: seq<uint8>, rest: seq<uint8>)
    requires rest == [] || Delimits(rest)
    ensures UnitLength(body + rest) <= |body|
    ensures UnitLength(body + rest) == |body| <==> Clean(body) && (rest == [] || !EndsInZero(body))
  {
    ReadWithin(body, rest);
    if Clean(body) && (rest == [] || !EndsInZero(body)) {
      ReadWhole(body, rest);
    }
  }

  lemma {:induction false} ReadWhole(body: seq<uint8>, rest: seq<uint8>)
    requires rest == [] || Delimits(rest)
    requires Clean(body) && (rest == [] || !EndsInZero(body))
    ensures UnitLength(body + rest) == |body|
  {
    if body == [] {
      assert body + rest == rest;
    } else {
      CleanCons(body);
      DelimitsInside(body, rest);
      assert (body + rest)[1..] == body[1..] + rest;
      ReadWhole(body[1..], rest);
    }
  }

  lemma {:induction false} ReadWithin(body: seq<uint8>, rest: seq<uint8>)
    requires rest == [] || Delimits(rest)
    ensures UnitLength(body + rest) <= |body|
    ensures UnitLength(body + rest) == |body| ==> Clean(body) && (rest == [] || !EndsInZero(body))
  {
    if body == [] {
      assert body + rest == rest;
    } else {
      CleanCons(body);
      DelimitsInside(body, rest);
      assert (body + rest)[1..] == body[1..] + rest;
      ReadWithin(body[1..], rest);
    }
  }

  lemma CleanCons(body: seq<uint8>)
    requires body != []
    ensures Clean(body) <==> !Delimits(body) && Clean(body[1..])
  {
    assert body[0..] == body;
    forall i | 0 <= i < |body[1..]| ensures body[1..][i..] == body[i + 1..] {}
    if !Delimits(body) && Clean(body[1..]) {
      forall i | 0 <= i < |body| ensures !Delimits(body[i..]) {
        if i > 0 {
          assert body[i..] == body[1..][i - 1..];
        }
      }
    }
  }

  // A delimiter starting in `body` is its own, or its last one or two zeros in front of `rest`.
  lemma DelimitsInside(body: seq<uint8>, rest: seq<uint8>)
    requires body != [] && (rest == [] || Delimits(rest))
    ensures Delimits(body + rest) <==>
      Delimits(body) || (rest != [] && |body| <= 2 && body[0] == 0 && body[|body| - 1] == 0)
  {
  }

  // Writing then parsing gives back exactly the bodies, in order, whatever the mix of start
  // codes, if and only if the units are separable.
  lemma {:induction false} DecodeSerialize(units: seq<Unit>)
    ensures Decode(Serialize(units)) == Some(Bodies(units)) <==> Separable(units)
  {
    if units == [] {
      assert Bodies(units) == [];
    } else {
      var u, tail := units[0], units[1..];
      SerializeDelimits(tail);
      DecodeSerialize(tail);
      DecodeCons(u, Serialize(tail), Bodies(tail));
      assert Bodies(units) == [u.body] + Bodies(tail);
      SeparableCons(units);
    }
  }

  lemma {:induction false} SerializeDelimits(units: seq<Unit>)
    ensures Serialize(units) == [] <==> units == []
    ensures units != [] ==> Delimits(Serialize(units))
  {
  }

  lemma {:induction false} DecodeCons(u: Unit, rest: seq<uint8>, bodies: seq<seq<uint8>>)
    requires rest == [] || Delimits(rest)
    ensures Decode(StartCode(u.long) + u.body + rest) == Some([u.body] + bodies) <==>
      && u.body != [] && Clean(u.body) && (rest == [] || !EndsInZero(u.body))
      && Decode(rest) == Some(bodies)
  {
    var s := u.body + rest;
    var n := UnitLength(s);
    UnitLengthOf(u.body, rest);
    DecodeOne(u, rest);
    if n == |u.body| {
      assert s[..n] == u.body && s[n..] == rest;
      forall r: seq<seq<uint8>> | [u.body] + r == [u.body] + bodies ensures r == bodies {
        assert ([u.body] + r)[1..] == r && ([u.body] + bodies)[1..] == bodies;
      }
    } else {
      forall r: seq<seq<uint8>> ensures [s[..n]] + r != [u.body] + bodies {
        assert ([s[..n]] + r)[0] == s[..n] && ([u.body] + bodies)[0] == u.body;
      }
    }
  }

  lemma SeparableCons(units: seq<Unit>)
    requires units != []
    ensures Separable(units) <==>
      && units[0].body != [] && Clean(units[0].body)
      && (|units| == 1 || !EndsInZero(units[0].body))
      && Separable(units[1..])
  {
  }

  // One step of the decoding process, from either start code.
  lemma {:induction false} DecodeOne(u: Unit, rest: seq<uint8>)
    ensures Decode(StartCode(u.long) + u.body + rest) == DecodeUnit(u.body + rest)
  {
    var short := [0, 0, 1] + (u.body + rest);
    assert short[3..] == u.body + rest;
    if u.long {
      assert StartCode(u.long) + u.body + rest == [0] + short;
      assert ([0] + short)[1..] == short;
    } else {
      assert StartCode(u.long) + u.body + rest == short;
    }
  }

  lemma DropInto(x: seq<uint8>, y: seq<uint8>, z: seq<uint8>, k: nat)
    requires k <= |x|
    ensures (x + y + z)[k..] == x[k..] + y + z && (x + y + z)[..k] == x[..k]
  {
  }

  // A zero byte inserted in front of a start code never changes what is decoded, whatever
  // bytes stand before and after it.
  lemma {:induction false} InsertZero(x: seq<uint8>, y: seq<uint8>)
    ensures Decode(x + [0, 0, 1] + y) == Decode(x + [0, 0, 0, 1] + y)
    decreases |x|
  {
    var s, t := x + [0, 0, 1] + y, x + [0, 0, 0, 1] + y;
    if x == [] {
      assert t[1..] == s;
    } else if StartsUnit(s) {
      var x' := x[3..];
      DropInto(x, [0, 0, 1], y, 3);
      DropInto(x, [0, 0, 0, 1], y, 3);
      UnitLengthBefore(x', y);
      var n := UnitLength(s[3..]);
      DropInto(x', [0, 0, 1], y, n);
      DropInto(x', [0, 0, 0, 1], y, n);
      InsertZero(x'[n..], y);
    } else {
      assert !StartsUnit(t);
      DropInto(x, [0, 0, 1], y, 1);
      DropInto(x, [0, 0, 0, 1], y, 1);
      InsertZero(x[1..], y);
    }
  }

  lemma {:induction false} UnitLengthBefore(x: seq<uint8>, y: seq<uint8>)
    ensures UnitLength(x + [0, 0, 1] + y) == UnitLength(x + [0, 0, 0, 1] + y) <= |x|
  {
    var s, t := x + [0, 0, 1] + y, x + [0, 0, 0, 1] + y;
    assert Delimits(s) <==> Delimits(t);
    if x == [] {
    } else {
      assert s[1..] == x[1..] + [0, 0, 1] + y && t[1..] == x[1..] + [0, 0, 0, 1] + y;
      UnitLengthBefore(x[1..], y);
    }
  }

  // Rewriting every start code to its four-byte form preserves the meaning of the stream, for
  // every list of units, well formed or not.
  lemma {:induction false} LengthenPreservesDecode(pre: seq<uint8>, units: seq<Unit>)
    ensures Decode(pre + Serialize(units)) == Decode(pre + Serialize(Lengthened(units)))
    decreases |units|
  {
    if units == [] {
      assert Lengthened(units) == units;
    } else {
      var u, tail := units[0], units[1..];
      var code, rest, longRest := StartCode(u.long), Serialize(tail), Serialize(Lengthened(tail));
      var pre' := pre + StartCode(true) + u.body;
      assert Lengthened(units)[1..] == Lengthened(tail);
      Regroup(pre, code, u.body, rest);
      Regroup(pre, StartCode(true), u.body, rest);
      Regroup(pre, StartCode(true), u.body, longRest);
      InsertZero(pre, u.body + rest);
      LengthenPreservesDecode(pre', tail);
    }
  }

  lemma Regroup(a: seq<uint8>, b: seq<uint8>, c: seq<uint8>, d: seq<uint8>)
    ensures a + (b + c + d) == a + b + (c + d) == (a + b + c) + d
  {
  }
}
