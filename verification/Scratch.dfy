/** The constant global of unspecified bytes, carved up into one range per use. */
module Scratch {
  import opened Options
  import opened Words
  import opened Ir

  const SCRATCH_BYTES: nat := 65536

  /** One use: the width asked for, and a value it should read. */
  datatype Site = Site(bits: nat, value: nat) {
    function Bytes(): nat { (bits + 7) / 8 }

    predicate Fits() { value < Pow2(bits) }
  }

  /** Bytes handed out to a sequence of uses. */
  function Size(sites: seq<Site>): nat {
    if sites == [] then 0 else Size(sites[..|sites| - 1]) + sites[|sites| - 1].Bytes()
  }

  /** The content that gives every use its value. */
  function Layout(sites: seq<Site>): (bytes: seq<nat>)
    ensures |bytes| == Size(sites)
  {
    if sites == [] then []
    else
      var last := sites[|sites| - 1];
      Layout(sites[..|sites| - 1]) + ToLE(last.value, last.Bytes())
  }

  lemma {:induction false} SizeAppend(a: seq<Site>, b: seq<Site>)
    ensures Size(a + b) == Size(a) + Size(b)
    decreases |b|
  {
    if b == [] {
      assert a + b == a;
    } else {
      var n := |b| - 1;
      assert (a + b)[..|a + b| - 1] == a + b[..n];
      SizeAppend(a, b[..n]);
    }
  }

  lemma {:induction false} LayoutPrefix(a: seq<Site>, b: seq<Site>)
    requires a <= b
    ensures Layout(a) <= Layout(b)
    decreases |b|
  {
    if a != b {
      var n := |b| - 1;
      assert a == b[..|a|] == b[..n][..|a|];
      LayoutPrefix(a, b[..n]);
    }
  }

  /** The ranges of two uses are disjoint, in order, and inside the bytes handed out. */
  lemma {:induction false} RangesDisjoint(sites: seq<Site>, i: nat, j: nat)
    requires i < j < |sites|
    ensures Size(sites[..i]) + sites[i].Bytes() <= Size(sites[..j])
    ensures Size(sites[..j]) + sites[j].Bytes() <= Size(sites)
  {
    SizeMonotone(sites, i + 1, j);
    SizeMonotone(sites, j + 1, |sites|);
    assert sites[..i + 1][..i] == sites[..i];
    assert sites[..j + 1][..j] == sites[..j];
    assert sites[..|sites|] == sites;
  }

  lemma {:induction false} SizeMonotone(sites: seq<Site>, i: nat, j: nat)
    requires i <= j <= |sites|
    ensures Size(sites[..i]) <= Size(sites[..j])
    decreases j
  {
    if i < j {
      assert sites[..j][..j - 1] == sites[..j - 1];
      SizeMonotone(sites, i, j - 1);
    }
  }

  lemma BytesCover(bits: nat, v: nat)
    requires v < Pow2(bits)
    ensures v % Pow2(8 * ((bits + 7) / 8)) == v
  {
    Pow2Mono(bits, 8 * ((bits + 7) / 8));
    ModSmall(v, Pow2(8 * ((bits + 7) / 8)));
  }

  /** Whatever values are chosen, one content of the global makes every use read its own:
      unspecified values are independent of one another. */
  lemma {:induction false} SiteLoads(sites: seq<Site>, pre: seq<Site>, site: Site, rest: seq<nat>)
    requires pre + [site] <= sites && site.Fits()
    ensures UnspecifiedAt(Layout(sites) + rest, Size(pre), site.bits) == Some(site.value)
  {
    var upto := pre + [site];
    LayoutPrefix(upto, sites);
    assert upto[..|upto| - 1] == pre;
    var bytes, n := Layout(sites) + rest, site.Bytes();
    assert Layout(upto) == Layout(pre) + ToLE(site.value, n);
    assert bytes[Size(pre)..Size(pre) + n] == Layout(upto)[Size(pre)..Size(pre) + n] == ToLE(site.value, n);
    FromToLE(site.value, n);
    BytesCover(site.bits, site.value);
    WrapIdentity(site.bits, site.value);
  }

  lemma {:induction false} EverySiteLoads(sites: seq<Site>, rest: seq<nat>)
    requires forall site <- sites :: site.Fits()
    ensures forall i :: 0 <= i < |sites| ==>
              UnspecifiedAt(Layout(sites) + rest, Size(sites[..i]), sites[i].bits) == Some(sites[i].value)
  {
    forall i | 0 <= i < |sites|
      ensures UnspecifiedAt(Layout(sites) + rest, Size(sites[..i]), sites[i].bits) == Some(sites[i].value)
    {
      assert sites[..i] + [sites[i]] <= sites;
      SiteLoads(sites, sites[..i], sites[i], rest);
    }
  }
}
