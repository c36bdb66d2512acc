/** One internship-offer record of the offers file, as `remplirOffreStage`
    reads it: four header integers `ref dept filled candid` followed by as
    many candidate ids as `candid` asks for (one, two or three; none for any
    other value). The file is modelled as the sequence of integer tokens that
    `fscanf("%d")` can still read; the end of that sequence stands both for
    end-of-file and for the first token that is not an integer. */
module OfferRecord {

  /** References below this value are skipped by the loader. */
  const MinRef: int := 1000

  /** One row of the seven parallel offer arrays. `filled` and `candid` are
      kept exactly as read: the loader never checks their range. */
  datatype Offer = Offer(ref: int, dept: int, filled: int, candid: int,
                         etu1: int, etu2: int, etu3: int)

  /** How many candidate ids follow the header for a given `candid` value. */
  function CandidateTokens(candid: int): (k: nat)
    ensures k <= 3
    ensures k == 0 <==> !(1 <= candid <= 3)
  {
    if 1 <= candid <= 3 then candid else 0
  }

  /** Number of tokens a record with this `candid` occupies. */
  function Width(candid: int): nat {
    4 + CandidateTokens(candid)
  }

  /** The candidate slots the loader does not read hold 0. */
  predicate Padded(o: Offer) {
    var k := CandidateTokens(o.candid);
    && (k < 1 ==> o.etu1 == 0)
    && (k < 2 ==> o.etu2 == 0)
    && (k < 3 ==> o.etu3 == 0)
  }

  /** A record the loader can produce: a real reference and padded slots. */
  predicate Storable(o: Offer) {
    o.ref >= MinRef && Padded(o)
  }

  /** The token layout of one record in the offers file. */
  function Format(o: Offer): (ts: seq<int>)
    ensures |ts| == Width(o.candid)
    ensures ts[..4] == [o.ref, o.dept, o.filled, o.candid]
  {
    [o.ref, o.dept, o.filled, o.candid] + [o.etu1, o.etu2, o.etu3][..CandidateTokens(o.candid)]
  }

  /** Outcome of one iteration of the loader's loop on the remaining tokens:
      no integer left, a skipped sentinel token, a record cut short (its
      reference was read), or a complete record and the tokens it used. */
  datatype Step = End | Skip | Truncated(ref: int) | Accept(offer: Offer, width: nat)

  /** One iteration of the loop body of SAE.c:28-68 on the tokens `ts`. */
  function ReadOffer(ts: seq<int>): (s: Step)
    ensures s.End? <==> |ts| == 0
    ensures s.Skip? <==> |ts| > 0 && ts[0] < MinRef
    ensures s.Accept? <==> |ts| >= 4 && ts[0] >= MinRef && |ts| >= Width(ts[3])
    ensures s.Truncated? ==> s.ref == ts[0] >= MinRef
    ensures s.Accept? ==>
              && Storable(s.offer)
              && s.offer.candid == ts[3]
              && s.width == Width(s.offer.candid) <= |ts|
  {
    if |ts| == 0 then End
    else if ts[0] < MinRef then Skip
    else if |ts| < 4 then Truncated(ts[0])
    else
      var k := CandidateTokens(ts[3]);
      if |ts| < 4 + k then Truncated(ts[0])
      else
        var o := Offer(ts[0], ts[1], ts[2], ts[3],
                       if k >= 1 then ts[4] else 0,
                       if k >= 2 then ts[5] else 0,
                       if k >= 3 then ts[6] else 0);
        Accept(o, 4 + k)
  }

  /** An accepted record is exactly the layout of the tokens it used. */
  lemma ReadLayout(ts: seq<int>)
    requires ReadOffer(ts).Accept?
    ensures var s := ReadOffer(ts);
            ts[..s.width] == Format(s.offer)
  {
  }

  /** A storable record written in its layout is read back whole, whatever
      follows it. */
  lemma ReadFormatted(o: Offer, rest: seq<int>)
    requires Storable(o)
    ensures ReadOffer(Format(o) + rest) == Accept(o, Width(o.candid))
  {
    var ts := Format(o) + rest;
    assert ts[..4] == [o.ref, o.dept, o.filled, o.candid];
    var s := ReadOffer(ts);
    assert s.Accept?;
    ReadLayout(ts);
    assert ts[..s.width] == Format(s.offer) == Format(o);
    FormatInjective(s.offer, o);
  }

  /** Two padded records with the same layout are the same record. */
  lemma FormatInjective(a: Offer, b: Offer)
    requires Padded(a) && Padded(b)
    requires Format(a) == Format(b)
    ensures a == b
  {
    assert Format(a)[..4] == Format(b)[..4];
    var k := CandidateTokens(a.candid);
    if k >= 1 { assert Format(a)[4] == Format(b)[4]; }
    if k >= 2 { assert Format(a)[5] == Format(b)[5]; }
    if k >= 3 { assert Format(a)[6] == Format(b)[6]; }
  }

  /** A record whose reference was read but which ends before its layout is
      complete is reported as truncated, with that reference. */
  lemma ReadCutShort(o: Offer, m: nat)
    requires o.ref >= MinRef
    requires 1 <= m < Width(o.candid)
    ensures ReadOffer(Format(o)[..m]) == Truncated(o.ref)
  {
    var ts := Format(o)[..m];
    assert ts[0] == o.ref;
    if m >= 4 {
      assert ts[3] == Format(o)[..4][3] == o.candid;
    }
  }

  /** The filled flag (third token) never changes what the loader does with a
      record: the same step results, only the stored flag differs. */
  lemma FilledIgnored(ts: seq<int>, x: int)
    requires |ts| > 2
    ensures ReadOffer(ts[2 := x]) ==
            match ReadOffer(ts)
            case Accept(o, w) => Accept(o.(filled := x), w)
            case other => other
  {
  }
}
