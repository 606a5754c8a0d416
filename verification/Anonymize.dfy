/** Reporter anonymisation of internal/analytics/anonymize.go: what counts as one reporter. */
module Anonymize {
  import opened Wrappers

  type byte = n: int | 0 <= n < 256

  // An address as net.ParseIP returns it: 16 bytes, IPv4 in its ::ffff:0:0/96 form.
  type Address = s: seq<byte> | |s| == 16 witness seq(16, _ => 0)

  // The text stored with a report. Canonical IP text determines the bytes, so the bytes stand for it.
  datatype Reporter = Blank | V4(octets: seq<byte>) | V6(octets: seq<byte>)

  predicate IsV4(a: Address) {
    (forall i | 0 <= i < 10 :: a[i] == 0) && a[10] == 255 && a[11] == 255
  }

  /** What AnonymizeIP returns for a parsed address; None is text that net.ParseIP rejects. */
  function Masked(ip: Option<Address>): Reporter {
    match ip
    case None => Blank
    case Some(a) =>
      if IsV4(a) then V4(a[12..15] + [0])
      else V6(a[..8] + [0, 0, 0, 0, 0, 0, 0, 0])
  }

  /** The in-place masking. To4 returns a view of the last four bytes, so its last octet is p[15]. */
  method AnonymizeIP(p: array?<byte>) returns (text: Reporter)
    requires p != null ==> p.Length == 16
    modifies p
    ensures text == Masked(if p == null then None else Some(old(p[..])))
    ensures p == null ==> text == Blank
    // IPv4: the first three octets stay, the last is zero
    ensures p != null && old(p[..12]) == [0, 0, 0, 0, 0, 0, 0, 0, 0, 0, 255, 255] ==>
              && p[..15] == old(p[..15]) && p[15] == 0
              && text.V4? && |text.octets| == 4
              && text.octets[..3] == old(p[12..15]) && text.octets[3] == 0
    // IPv6: the first eight bytes stay, the last eight are zero
    ensures p != null && old(p[..12]) != [0, 0, 0, 0, 0, 0, 0, 0, 0, 0, 255, 255] ==>
              && p[..8] == old(p[..8]) && (forall k | 8 <= k < 16 :: p[k] == 0)
              && text.V6? && |text.octets| == 16
              && text.octets[..8] == old(p[..8]) && (forall k | 8 <= k < 16 :: text.octets[k] == 0)
  {
    if p == null {
      return Blank;
    }
    ghost var was := p[..];
    MappedPrefix(was);
    assert old(p[..12]) == was[..12] && old(p[12..15]) == was[12..15];
    if IsV4(p[..]) {
      p[15] := 0;
      assert p[12..16] == was[12..15] + [0];
      return V4(p[12..16]);
    }
    for i := 8 to 16
      invariant p[..8] == was[..8]
      invariant forall k | 8 <= k < i :: p[k] == 0
    {
      p[i] := 0;
    }
    assert p[..] == was[..8] + [0, 0, 0, 0, 0, 0, 0, 0];
    return V6(p[..]);
  }

  lemma MappedPrefix(a: Address)
    ensures IsV4(a) <==> a[..12] == [0, 0, 0, 0, 0, 0, 0, 0, 0, 0, 255, 255]
  {
    var mapped := [0, 0, 0, 0, 0, 0, 0, 0, 0, 0, 255, 255];
    if a[..12] == mapped {
      forall i | 0 <= i < 12 ensures a[i] == mapped[i] {
        assert a[..12][i] == mapped[i];
      }
    }
  }

  /** Two addresses are one reporter exactly when they share an IPv4 /24 or an IPv6 /64. */
  lemma SameReporter(a: Address, b: Address)
    ensures Masked(Some(a)) == Masked(Some(b)) <==>
            (IsV4(a) <==> IsV4(b)) && (if IsV4(a) then a[..15] == b[..15] else a[..8] == b[..8])
  {
    var x, y := Masked(Some(a)), Masked(Some(b));
    if IsV4(a) && IsV4(b) {
      assert a[..15] == a[..12] + a[12..15] && b[..15] == b[..12] + b[12..15];
      assert a[..12] == b[..12];
      assert x.octets[..3] == a[12..15] == a[..15][12..15];
      assert y.octets[..3] == b[12..15] == b[..15][12..15];
    } else if !IsV4(a) && !IsV4(b) {
      assert x.octets[..8] == a[..8] && y.octets[..8] == b[..8];
    }
  }

  /** The stored text, parsed again. */
  function Reparsed(r: Reporter): Option<Address>
    requires r.V4? ==> |r.octets| == 4
    requires r.V6? ==> |r.octets| == 16
  {
    match r
    case Blank => None
    case V4(o) => Some([0, 0, 0, 0, 0, 0, 0, 0, 0, 0, 255, 255] + o)
    case V6(o) => Some(o)
  }

  /** Masking what is already masked changes nothing; in particular a masked IPv6 address never reads back as IPv4. */
  lemma MaskedTwice(ip: Option<Address>)
    ensures Masked(Reparsed(Masked(ip))) == Masked(ip)
  {
    match ip
    case None =>
    case Some(a) =>
      var m := Masked(ip);
      var again := Reparsed(m).value;
      if IsV4(a) {
        assert again[12..15] + [0] == m.octets;
      } else {
        assert again[10] == 0;
        assert again[..8] + [0, 0, 0, 0, 0, 0, 0, 0] == m.octets;
      }
  }
}
