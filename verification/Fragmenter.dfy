// rtpFragmentize: the two-pass routine that copies the NAL units x264 produced into the encoded
// image, rewriting their start codes, and fills the table of fragments.
module Fragmenter {
  import opened Common
  import opened AnnexB

  // x264_nal_t. `payload` is the memory p_payload points at, `iPayload` its announced size.
  datatype Nal = Nal(longStartcode: bool, iPayload: int32, payload: seq<uint8>)

  predicate Backed(n: Nal) {
    n.iPayload <= |n.payload|
  }

  function StartcodeSize(n: Nal): nat {
    if n.longStartcode then 4 else 3
  }

  function Body(n: Nal): seq<uint8>
    requires Backed(n) && n.iPayload >= 4
  {
    n.payload[StartcodeSize(n)..n.iPayload]
  }

  // The payload room needed once a short start code has grown by a byte.
  function Padded(n: Nal): int {
    if n.longStartcode then n.iPayload else n.iPayload + 1
  }

  function Required(nals: seq<Nal>): int {
    if nals == [] then 0 else Required(nals[..|nals| - 1]) + Padded(nals[|nals| - 1])
  }

  predicate AllPositive(nals: seq<Nal>) {
    forall i :: 0 <= i < |nals| ==> nals[i].iPayload > 0
  }

  predicate AllLongEnough(nals: seq<Nal>) {
    forall i :: 0 <= i < |nals| ==> nals[i].iPayload >= 4
  }

  predicate AllBacked(nals: seq<Nal>) {
    forall i :: 0 <= i < |nals| ==> Backed(nals[i])
  }

  // What the copy pass puts in the image: every body behind a four-byte start code.
  function Units(nals: seq<Nal>): (r: seq<Unit>)
    requires AllBacked(nals) && AllLongEnough(nals)
    ensures |r| == |nals|
  {
    seq(|nals|, i requires 0 <= i < |nals| => Unit(true, Body(nals[i])))
  }

  function Stream(nals: seq<Nal>): seq<uint8>
    requires AllBacked(nals) && AllLongEnough(nals)
  {
    Serialize(Units(nals))
  }

  class EncodedImage {
    var buffer: array?<uint8>
    // The owning pointer kept beside the image (encodedImageBuffer).
    var owned: array?<uint8>
    var size: nat
    var length: nat

    constructor ()
      ensures buffer == null && owned == null && size == 0 && length == 0
    {
      buffer, owned, size, length := null, null, 0, 0;
    }

    // The buffer exists, is owned, and is exactly as long as `size` says.
    predicate Sized()
      reads this
    {
      buffer != null && owned == buffer && buffer.Length == size
    }
  }

  class FragmentationHeader {
    var offset: seq<nat>
    var length: seq<nat>

    constructor ()
      ensures offset == [] && length == []
    {
      offset, length := [], [];
    }
  }

  datatype Outcome = Done | CheckFailed

  // memcpy
  method CopyInto(dst: array<uint8>, at: nat, src: seq<uint8>)
    requires at + |src| <= dst.Length
    modifies dst
    ensures dst[..at] == old(dst[..at])
    ensures dst[at..at + |src|] == src
  {
    forall i | 0 <= i < |src| {
      dst[at + i] := src[i];
    }
  }

  // The room the image has after the first pass.
  function Grown(size: nat, unencoded: nat, required: int): (r: nat)
    ensures size >= required ==> r == size
    ensures size < required ==> r >= required && r >= unencoded && (r == required || r == unencoded)
  {
    if size < required then Max(unencoded, required) else size
  }

  // The first `k` entries of the fragment table point just behind each start code.
  predicate Tabulated(offset: seq<nat>, length: seq<nat>, nals: seq<Nal>, k: nat)
    requires AllBacked(nals) && k <= |nals| && AllLongEnough(nals[..k])
  {
    && |offset| == |length| == |nals|
    && forall i :: 0 <= i < k ==> offset[i] == Required(nals[..i]) + 4 && length[i] == |Body(nals[i])|
  }

  // The first pass. The overflow check never fires and the increment never wraps.
  method RequiredSize(nals: seq<Nal>) returns (outcome: Outcome, requiredSize: nat)
    requires |nals| < 0x1_0000_0000
    ensures outcome.Done? <==> AllPositive(nals)
    ensures outcome.Done? ==> requiredSize == Required(nals) < SIZE_LIMIT
  {
    requiredSize := 0;
    for idx := 0 to |nals|
      invariant AllPositive(nals[..idx])
      invariant requiredSize == Required(nals[..idx]) <= idx * 0x8000_0000
    {
      if nals[idx].iPayload <= 0 {
        return CheckFailed, requiredSize;
      }
      if nals[idx].iPayload > SIZE_LIMIT - 1 - requiredSize {
        assert false;
        return CheckFailed, requiredSize;
      }
      assert nals[..idx + 1][..idx] == nals[..idx];
      requiredSize := requiredSize + nals[idx].iPayload;
      if !nals[idx].longStartcode {
        requiredSize := (requiredSize + 1) % SIZE_LIMIT;
      }
    }
    assert nals[..|nals|] == nals;
    outcome := Done;
  }

  // Reallocates when the announced size is too small.
  method Reserve(image: EncodedImage, unencoded: nat, requiredSize: nat)
    requires image.Sized()
    modifies image
    ensures image.Sized() && image.length == old(image.length)
    ensures image.size == Grown(old(image.size), unencoded, requiredSize)
    ensures image.size == old(image.size) ==> image.buffer == old(image.buffer)
    ensures image.size != old(image.size) ==> fresh(image.buffer)
  {
    if image.size < requiredSize {
      image.size := unencoded;
      if image.size < requiredSize {
        image.size := requiredSize;
      }
      image.buffer := new uint8[image.size];
      image.owned := image.buffer;
    }
  }

  // One turn of the second pass, after its check: start code, then body.
  method CopyNal(image: EncodedImage, nal: Nal) returns (naluSize: nat)
    requires image.Sized() && Backed(nal) && nal.iPayload >= 4
    requires image.length + Padded(nal) <= image.size
    modifies image`length, image.buffer
    ensures naluSize == |Body(nal)|
    ensures image.length == old(image.length) + 4 + naluSize
    ensures image.buffer[..image.length] == old(image.buffer[..image.length]) + [0, 0, 0, 1] + Body(nal)
  {
    var offset := StartcodeSize(nal);
    naluSize := nal.iPayload - offset;
    ghost var done := image.buffer[..image.length];
    CopyInto(image.buffer, image.length, [0, 0, 0, 1]);
    image.length := image.length + 4;
    assert image.buffer[..image.length] == done + [0, 0, 0, 1];
    CopyInto(image.buffer, image.length, nal.payload[offset..offset + naluSize]);
    image.length := image.length + naluSize;
    assert image.buffer[..image.length] == done + [0, 0, 0, 1] + Body(nal);
  }

  // What the second pass has achieved after `k` units.
  ghost predicate Copied(image: EncodedImage, header: FragmentationHeader, nals: seq<Nal>, k: nat)
    requires AllBacked(nals)
    reads image, image.buffer, header
  {
    && k <= |nals|
    && AllLongEnough(nals[..k])
    && image.Sized()
    && image.length == Required(nals[..k]) <= image.size
    && image.buffer[..image.length] == Stream(nals[..k])
    && Tabulated(header.offset, header.length, nals, k)
  }

  method CopyStep(image: EncodedImage, header: FragmentationHeader, nals: seq<Nal>, idx: nat)
    requires AllBacked(nals) && AllPositive(nals) && idx < |nals| && nals[idx].iPayload >= 4
    requires Copied(image, header, nals, idx) && Required(nals) <= image.size
    modifies image`length, image.buffer, header
    ensures Copied(image, header, nals, idx + 1)
  {
    RequiredPrefix(nals, idx + 1);
    StreamSnoc(nals, idx);
    var naluSize := CopyNal(image, nals[idx]);
    header.offset := header.offset[idx := image.length - naluSize];
    header.length := header.length[idx := naluSize];
  }

  // A throw in the second pass happens at the first payload shorter than 4 bytes and leaves
  // everything before it copied; a throw in the first pass changes nothing.
  method RtpFragmentize(image: EncodedImage, unencoded: nat, nals: seq<Nal>, header: FragmentationHeader)
    returns (outcome: Outcome)
    requires image.Sized()
    requires AllBacked(nals) && |nals| < 0x1_0000_0000
    modifies image, image.buffer, header
    ensures image.Sized()
    ensures image.size ==
      if AllPositive(nals) then Grown(old(image.size), unencoded, Required(nals)) else old(image.size)
    ensures image.size == old(image.size) ==> image.buffer == old(image.buffer)
    ensures image.size != old(image.size) ==> fresh(image.buffer)
    ensures outcome.Done? <==> AllLongEnough(nals)
    ensures outcome.Done? ==> image.length == Required(nals) && Copied(image, header, nals, |nals|)
    ensures !AllPositive(nals) ==>
      && image.length == old(image.length)
      && image.buffer[..] == old(image.buffer[..])
      && unchanged(header)
    ensures AllPositive(nals) && outcome.CheckFailed? ==>
      exists k :: 0 <= k < |nals| && nals[k].iPayload < 4 && Copied(image, header, nals, k)
  {
    var requiredSize;
    outcome, requiredSize := RequiredSize(nals);
    if outcome.CheckFailed? {
      return;
    }
    Reserve(image, unencoded, requiredSize);
    header.offset := seq(|nals|, _ => 0);
    header.length := seq(|nals|, _ => 0);
    image.length := 0;
    for idx := 0 to |nals|
      invariant image.Sized() && image.size == Grown(old(image.size), unencoded, requiredSize)
      invariant image.size == old(image.size) ==> image.buffer == old(image.buffer)
      invariant image.size != old(image.size) ==> fresh(image.buffer)
      invariant Copied(image, header, nals, idx)
    {
      if nals[idx].iPayload < 4 {
        return CheckFailed;
      }
      CopyStep(image, header, nals, idx);
    }
    assert nals[..|nals|] == nals;
  }

  // The sum of the first pass stays far from the end of size_t, so neither the explicit
  // overflow check nor the unchecked increment can change it.
  lemma {:induction false} RequiredFits(nals: seq<Nal>)
    requires AllPositive(nals)
    ensures 0 <= Required(nals) <= |nals| * 0x8000_0000
    ensures |nals| < 0x1_0000_0000 ==> Required(nals) < SIZE_LIMIT
  {
    if nals == [] {
    } else {
      RequiredFits(nals[..|nals| - 1]);
    }
  }

  lemma {:induction false} RequiredPrefix(nals: seq<Nal>, k: nat)
    requires k <= |nals| && AllPositive(nals)
    ensures Required(nals[..k]) <= Required(nals)
    ensures k > 0 ==> Required(nals[..k]) == Required(nals[..k - 1]) + Padded(nals[k - 1])
    decreases |nals| - k
  {
    if k > 0 {
      assert nals[..k][..k - 1] == nals[..k - 1];
    }
    if k < |nals| {
      RequiredPrefix(nals, k + 1);
    } else {
      assert nals[..k] == nals;
    }
  }

  lemma StreamSnoc(nals: seq<Nal>, k: nat)
    requires AllBacked(nals) && k < |nals| && AllLongEnough(nals[..k]) && nals[k].iPayload >= 4
    ensures AllLongEnough(nals[..k + 1])
    ensures Stream(nals[..k + 1]) == Stream(nals[..k]) + [0, 0, 0, 1] + Body(nals[k])
  {
    var last := [Unit(true, Body(nals[k]))];
    assert Units(nals[..k + 1]) == Units(nals[..k]) + last;
    SerializeAppend(Units(nals[..k]), last);
    assert Serialize(last) == [0, 0, 0, 1] + Body(nals[k]);
  }

  lemma StreamLength(nals: seq<Nal>, k: nat)
    requires AllBacked(nals) && k <= |nals| && AllLongEnough(nals[..k])
    ensures |Stream(nals[..k])| == Required(nals[..k])
  {
    if k > 0 {
      assert AllLongEnough(nals[..k - 1]) by {
        assert forall i :: 0 <= i < k - 1 ==> nals[..k - 1][i] == nals[..k][i];
      }
      assert nals[k - 1] == nals[..k][k - 1];
      StreamLength(nals, k - 1);
      StreamSnoc(nals, k - 1);
      assert nals[..k][..k - 1] == nals[..k - 1];
    }
  }

  // Every table entry selects its NAL's body out of the image, right behind 00 00 00 01, and
  // the fragments tile the image from the first start code to its last byte.
  lemma FragmentsTile(image: seq<uint8>, nals: seq<Nal>, offset: seq<nat>, length: seq<nat>, i: nat)
    requires AllBacked(nals) && AllLongEnough(nals) && i < |nals|
    requires image == Stream(nals) && Tabulated(offset, length, nals, |nals|)
    ensures 4 <= offset[i] && offset[i] + length[i] <= |image|
    ensures image[offset[i] - 4..offset[i]] == [0, 0, 0, 1]
    ensures image[offset[i]..offset[i] + length[i]] == Body(nals[i])
    ensures offset[0] == 4
    ensures offset[i] + length[i] == if i + 1 < |nals| then offset[i + 1] - 4 else |image|
  {
    FragmentAt(nals, i);
    var o, l := offset[i], length[i];
    assert o == Required(nals[..i]) + 4 && l == |Body(nals[i])|;
    if i + 1 == |nals| {
      assert nals[..i + 1] == nals;
      StreamLength(nals, |nals|);
    }
  }

  lemma FragmentAt(nals: seq<Nal>, i: nat)
    requires AllBacked(nals) && AllLongEnough(nals) && i < |nals|
    ensures var p := Required(nals[..i]);
            var q := p + 4 + |Body(nals[i])|;
            && 0 <= p && q == Required(nals[..i + 1]) && q <= |Stream(nals)|
            && Stream(nals)[p..p + 4] == [0, 0, 0, 1]
            && Stream(nals)[p + 4..q] == Body(nals[i])
  {
    StreamLength(nals, i);
    RequiredPrefix(nals, i + 1);
    StreamSplit(nals, i);
    Slices(Stream(nals[..i]), [0, 0, 0, 1], Body(nals[i]), Stream(nals[i + 1..]));
  }

  lemma StreamSplit(nals: seq<Nal>, i: nat)
    requires AllBacked(nals) && AllLongEnough(nals) && i < |nals|
    ensures Stream(nals) == Stream(nals[..i]) + [0, 0, 0, 1] + Body(nals[i]) + Stream(nals[i + 1..])
  {
    StreamSnoc(nals, i);
    assert Units(nals) == Units(nals[..i + 1]) + Units(nals[i + 1..]);
    SerializeAppend(Units(nals[..i + 1]), Units(nals[i + 1..]));
  }

  lemma Slices(a: seq<uint8>, b: seq<uint8>, c: seq<uint8>, d: seq<uint8>)
    ensures (a + b + c + d)[|a|..|a| + |b|] == b
    ensures (a + b + c + d)[|a| + |b|..|a| + |b| + |c|] == c
  {
  }

  // x264's side of the bargain: a payload starts with the start code its flag announces.
  predicate Announced(n: Nal)
    requires Backed(n) && n.iPayload >= 4
  {
    n.payload[..n.iPayload] == StartCode(n.longStartcode) + Body(n)
  }

  // Whatever follows the announced start code is the body, all of it and nothing else.
  lemma BodyIs(n: Nal, body: seq<uint8>)
    requires Backed(n) && n.iPayload >= 4
    requires n.payload[..n.iPayload] == StartCode(n.longStartcode) + body
    ensures Body(n) == body
  {
    var k := StartcodeSize(n);
    assert n.payload[..n.iPayload][k..] == n.payload[k..n.iPayload];
    assert (StartCode(n.longStartcode) + body)[k..] == body;
  }

  function ConcatPayloads(nals: seq<Nal>): seq<uint8>
    requires AllBacked(nals) && AllLongEnough(nals)
  {
    if nals == [] then [] else nals[0].payload[..nals[0].iPayload] + ConcatPayloads(nals[1..])
  }

  function ProducedUnits(nals: seq<Nal>): (r: seq<Unit>)
    requires AllBacked(nals) && AllLongEnough(nals)
    ensures |r| == |nals|
  {
    seq(|nals|, i requires 0 <= i < |nals| => Unit(nals[i].longStartcode, Body(nals[i])))
  }

  lemma {:induction false} PayloadsAreUnits(nals: seq<Nal>)
    requires AllBacked(nals) && AllLongEnough(nals)
    requires forall i :: 0 <= i < |nals| ==> Announced(nals[i])
    ensures ConcatPayloads(nals) == Serialize(ProducedUnits(nals))
  {
    if nals == [] {
    } else {
      assert ProducedUnits(nals)[1..] == ProducedUnits(nals[1..]);
      PayloadsAreUnits(nals[1..]);
    }
  }

  // The image means what x264's own output meant, for every list of NAL units and every mix of
  // start codes, even where that output is not a decodable stream.
  lemma {:induction false} RewritePreservesMeaning(nals: seq<Nal>)
    requires AllBacked(nals) && AllLongEnough(nals)
    requires forall i :: 0 <= i < |nals| ==> Announced(nals[i])
    ensures Decode(Stream(nals)) == Decode(ConcatPayloads(nals))
  {
    PayloadsAreUnits(nals);
    assert Lengthened(ProducedUnits(nals)) == Units(nals);
    LengthenPreservesDecode([], ProducedUnits(nals));
    assert [] + Serialize(Units(nals)) == Serialize(Units(nals));
    assert [] + Serialize(ProducedUnits(nals)) == Serialize(ProducedUnits(nals));
  }

  // The image decodes to exactly the bodies it was given, in order, if and only if the bodies
  // can be told apart in a byte stream at all; section 7.4.1 guarantees that they can.
  lemma ImageRoundTrip(nals: seq<Nal>)
    requires AllBacked(nals) && AllLongEnough(nals)
    ensures Decode(Stream(nals)) == Some(Bodies(Units(nals))) <==> Separable(Units(nals))
    ensures (forall i :: 0 <= i < |nals| ==> WellFormed(Body(nals[i]))) ==> Separable(Units(nals))
    ensures Bodies(Units(nals)) == seq(|nals|, i requires 0 <= i < |nals| => Body(nals[i]))
  {
    DecodeSerialize(Units(nals));
  }

  // Of units that x264 wrote with the start codes it announced, the image decodes to exactly
  // their bodies if and only if they are separable.
  lemma ProducedRoundTrip(nals: seq<Nal>, units: seq<Unit>)
    requires AllBacked(nals) && AllLongEnough(nals) && |units| == |nals|
    requires forall i :: 0 <= i < |nals| ==>
      nals[i].payload[..nals[i].iPayload] == StartCode(nals[i].longStartcode) + units[i].body
    ensures Decode(Stream(nals)) == Some(Bodies(units)) <==> Separable(units)
  {
    forall i | 0 <= i < |nals| ensures Units(nals)[i].body == units[i].body {
      BodyIs(nals[i], units[i].body);
    }
    DecodeSerialize(Units(nals));
    assert Bodies(Units(nals)) == Bodies(units);
  }
}
