/** `remplirOffreStage` (SAE.c:19-72): the seven caller-supplied arrays are
    modelled as sequences passed in and handed back, `*tlog` as an integer
    passed in and handed back, and the outcome of `fopen` as a boolean. */
module OfferLoader {
  import opened OfferRecord
  import opened OfferScan
  import opened Capacity
  import opened Sequences

  /** The seven parallel arrays `tRef`, `tDpt`, `tPourvu`, `tCandid`,
      `tEtu1`, `tEtu2`, `tEtu3`. */
  datatype OfferTables = OfferTables(ref: seq<int>, dpt: seq<int>, filled: seq<int>, candid: seq<int>,
                                     etu1: seq<int>, etu2: seq<int>, etu3: seq<int>)
  {
    /** Every array has at least `n` cells. */
    predicate Holds(n: int) {
      && |ref| >= n && |dpt| >= n && |filled| >= n && |candid| >= n
      && |etu1| >= n && |etu2| >= n && |etu3| >= n
    }

    /** Row `k` read across the seven arrays. */
    function Row(k: nat): Offer
      requires Holds(k + 1)
    {
      Offer(ref[k], dpt[k], filled[k], candid[k], etu1[k], etu2[k], etu3[k])
    }

    /** Writes `o` into row `k` of every array. */
    function Put(k: nat, o: Offer): (t: OfferTables)
      requires Holds(k + 1)
      ensures SameShape(this, t) && t.Row(k) == o
    {
      OfferTables(ref[k := o.ref], dpt[k := o.dept], filled[k := o.filled], candid[k := o.candid],
                  etu1[k := o.etu1], etu2[k := o.etu2], etu3[k := o.etu3])
    }
  }

  predicate SameShape(a: OfferTables, b: OfferTables) {
    && |a.ref| == |b.ref| && |a.dpt| == |b.dpt| && |a.filled| == |b.filled| && |a.candid| == |b.candid|
    && |a.etu1| == |b.etu1| && |a.etu2| == |b.etu2| && |a.etu3| == |b.etu3|
  }

  /** Cells from index `from` on agree in one array. */
  predicate SameFrom(a: seq<int>, b: seq<int>, from: int) {
    |a| == |b| && forall k :: from <= k < |a| && 0 <= k ==> a[k] == b[k]
  }

  /** Every cell from index `from` on is as it was, in all seven arrays. */
  predicate UnchangedFrom(a: OfferTables, b: OfferTables, from: int) {
    && SameFrom(a.ref, b.ref, from) && SameFrom(a.dpt, b.dpt, from) && SameFrom(a.filled, b.filled, from)
    && SameFrom(a.candid, b.candid, from) && SameFrom(a.etu1, b.etu1, from)
    && SameFrom(a.etu2, b.etu2, from) && SameFrom(a.etu3, b.etu3, from)
  }

  lemma UnchangedTrans(a: OfferTables, b: OfferTables, c: OfferTables, i: int, j: int)
    requires i <= j && UnchangedFrom(a, b, i) && UnchangedFrom(b, c, j)
    ensures UnchangedFrom(a, c, j)
  {
  }

  /** Writing row `k` leaves every other row as it was. */
  lemma PutFrame(t: OfferTables, k: nat, o: Offer)
    requires t.Holds(k + 1)
    ensures forall j :: 0 <= j < k ==> t.Put(k, o).Row(j) == t.Row(j)
    ensures UnchangedFrom(t, t.Put(k, o), k + 1)
  {
  }

  /** `os[k]` written into row `k` of `t`, for each `k`, first to last. */
  function Stored(t: OfferTables, os: seq<Offer>): (t': OfferTables)
    requires t.Holds(|os|)
    ensures SameShape(t, t')
    decreases |os|
  {
    if os == [] then t
    else
      var n := |os| - 1;
      Stored(t, os[..n]).Put(n, os[n])
  }

  /** After storing, row `k` holds `os[k]` and the rows past the records are
      untouched. */
  lemma {:induction false} StoredContents(t: OfferTables, os: seq<Offer>)
    requires t.Holds(|os|)
    ensures forall k :: 0 <= k < |os| ==> Stored(t, os).Row(k) == os[k]
    ensures UnchangedFrom(t, Stored(t, os), |os|)
    decreases |os|
  {
    if os != [] {
      var n := |os| - 1;
      var before := Stored(t, os[..n]);
      StoredContents(t, os[..n]);
      PutFrame(before, n, os[n]);
      UnchangedTrans(t, before, Stored(t, os), n, |os|);
      forall k | 0 <= k < |os|
        ensures Stored(t, os).Row(k) == os[k]
      {
        if k < n {
          assert Stored(t, os).Row(k) == before.Row(k) == os[..n][k];
        }
      }
    }
  }

  /** What a call leaves behind: the return code, the arrays and `*tlog`. */
  datatype OfferLoad = OfferLoad(code: int, tables: OfferTables, tlog: int)

  /** The whole call on a file whose tokens are `ts`. */
  function LoadOffers(isOpen: bool, ts: seq<int>, t: OfferTables, tlog: int, tmax: int): (r: OfferLoad)
    requires t.Holds(tmax)
    ensures !isOpen ==> r == OfferLoad(-1, t, tlog)
    ensures isOpen ==> r.code == 1
    ensures SameShape(t, r.tables)
    ensures isOpen ==>
              var s := Scan(ts, tmax);
              var n := |s.offers|;
              && n <= Room(tmax)
              && r.tlog == tlog + n
              && (forall k :: 0 <= k < n ==> r.tables.Row(k) == s.offers[k])
              && (s.stop.Cut? ==>
                    && r.tables.ref[n] == s.stop.ref
                    && UnchangedFrom(t.(ref := r.tables.ref), r.tables, n)
                    && UnchangedFrom(t, r.tables, n + 1))
              && (!s.stop.Cut? ==> UnchangedFrom(t, r.tables, n))
  {
    if !isOpen then OfferLoad(-1, t, tlog)
    else
      var s := Scan(ts, tmax);
      var n := |s.offers|;
      var stored := Stored(t, s.offers);
      StoredContents(t, s.offers);
      if !s.stop.Cut? then OfferLoad(1, stored, tlog + n)
      else
        var t' := stored.(ref := stored.ref[n := s.stop.ref]);
        assert forall k :: 0 <= k < n ==> t'.Row(k) == stored.Row(k);
        OfferLoad(1, t', tlog + n)
  }

  /** A sentinel token before the file changes nothing the call leaves
      behind. */
  lemma LoadSkipsSentinel(x: int, ts: seq<int>, t: OfferTables, tlog: int, tmax: int)
    requires t.Holds(tmax) && x < MinRef && tmax > 0
    ensures LoadOffers(true, [x] + ts, t, tlog, tmax) == LoadOffers(true, ts, t, tlog, tmax)
  {
    SkipSentinel(x, ts, tmax);
  }

  /** A scan that ends without a cut record leaves exactly its records in
      the first rows and nothing else changed. */
  lemma LoadUncut(ts: seq<int>, os: seq<Offer>, stop: Stop, t: OfferTables, tlog: int, tmax: int)
    requires t.Holds(tmax) && !stop.Cut?
    requires Scan(ts, tmax) == Scanned(os, stop)
    ensures var r := LoadOffers(true, ts, t, tlog, tmax);
            && r.code == 1 && r.tlog == tlog + |os|
            && (forall k :: 0 <= k < |os| ==> r.tables.Row(k) == os[k])
            && UnchangedFrom(t, r.tables, |os|)
  {
  }

  /** Loading a file of well-formed records that fits stores each record in
      its row, in file order, and adds their number to `*tlog`. */
  lemma LoadWholeFile(os: seq<Offer>, t: OfferTables, tlog: int, tmax: int)
    requires t.Holds(tmax) && |os| <= tmax
    requires forall o :: o in os ==> Storable(o)
    ensures var r := LoadOffers(true, Flatten(os), t, tlog, tmax);
            && r.code == 1 && r.tlog == tlog + |os|
            && (forall k :: 0 <= k < |os| ==> r.tables.Row(k) == os[k])
            && UnchangedFrom(t, r.tables, |os|)
  {
    ScanWholeFile(os, tmax);
    LoadUncut(Flatten(os), os, if |os| == tmax then Full else Exhausted, t, tlog, tmax);
  }

  /** Records beyond `tmax` are ignored without an error: the first `tmax`
      are stored and the call still returns 1. */
  lemma LoadOverCapacity(os: seq<Offer>, rest: seq<int>, t: OfferTables, tlog: int, tmax: nat)
    requires t.Holds(tmax) && tmax <= |os|
    requires forall o :: o in os ==> Storable(o)
    ensures var r := LoadOffers(true, Flatten(os) + rest, t, tlog, tmax);
            && r.code == 1 && r.tlog == tlog + tmax
            && (forall k :: 0 <= k < tmax ==> r.tables.Row(k) == os[k])
            && UnchangedFrom(t, r.tables, tmax)
  {
    ScanOverCapacity(os, rest, tmax);
    LoadUncut(Flatten(os) + rest, os[..tmax], Full, t, tlog, tmax);
  }

  /** A record cut short after well-formed ones keeps them, counts only
      them, and leaves its reference in `tRef` just past them, every other
      cell being untouched. */
  lemma LoadTruncated(os: seq<Offer>, o: Offer, m: nat, t: OfferTables, tlog: int, tmax: int)
    requires t.Holds(tmax) && |os| < tmax
    requires forall p :: p in os ==> Storable(p)
    requires o.ref >= MinRef && 1 <= m < Width(o.candid)
    ensures var r := LoadOffers(true, Flatten(os) + Format(o)[..m], t, tlog, tmax);
            && r.code == 1 && r.tlog == tlog + |os|
            && (forall k :: 0 <= k < |os| ==> r.tables.Row(k) == os[k])
            && r.tables.ref[|os|] == o.ref
            && UnchangedFrom(t.(ref := r.tables.ref), r.tables, |os|)
            && UnchangedFrom(t, r.tables, |os| + 1)
  {
    ScanTruncated(os, o, m, tmax);
  }

  /** The records a step hands to the arrays: the accepted one, if any. */
  function Taken(s: Step): seq<Offer> {
    if s.Accept? then [s.offer] else []
  }

  /** The tokens a step consumes when the loop goes on after it. */
  function Used(s: Step): nat {
    match s
    case Skip => 1
    case Accept(_, w) => w
    case _ => 0
  }

  /** Writing the record a step takes extends the stored rows by it. */
  lemma StoredStep(t: OfferTables, done: seq<Offer>, s: Step)
    requires t.Holds(|done| + 1)
    ensures Stored(t, done + Taken(s)) == if s.Accept? then Stored(t, done).Put(|done|, s.offer) else Stored(t, done)
  {
    if s.Accept? {
      assert (done + [s.offer])[..|done|] == done;
    } else {
      assert done + [] == done;
    }
  }

  /** Filling a whole row overwrites the reference written into it first. */
  lemma PutOverwritesRef(t: OfferTables, k: nat, ref: int, o: Offer)
    requires t.Holds(k + 1)
    ensures t.(ref := t.ref[k := ref]).Put(k, o) == t.Put(k, o)
  {
    assert t.ref[k := ref][k := o.ref] == t.ref[k := o.ref];
  }

  /** The header and candidate reads of SAE.c:31-57 for the record whose
      reference (at least 1000) sits at `pos`. */
  method ReadFields(ts: seq<int>, pos: nat) returns (step: Step)
    requires pos < |ts| && ts[pos] >= MinRef
    ensures step == ReadOffer(ts[pos..])
  {
    if pos + 4 > |ts| {
      return Truncated(ts[pos]);
    }
    var dept, filled, candid := ts[pos + 1], ts[pos + 2], ts[pos + 3];
    var next := pos + 4;
    var etu1, etu2, etu3;
    if candid == 3 {
      if next + 3 > |ts| {
        return Truncated(ts[pos]);
      }
      etu1, etu2, etu3 := ts[next], ts[next + 1], ts[next + 2];
    } else if candid == 2 {
      if next + 2 > |ts| {
        return Truncated(ts[pos]);
      }
      etu1, etu2 := ts[next], ts[next + 1];
      etu3 := 0;
    } else if candid == 1 {
      if next + 1 > |ts| {
        return Truncated(ts[pos]);
      }
      etu1 := ts[next];
      etu2, etu3 := 0, 0;
    } else {
      etu1, etu2, etu3 := 0, 0, 0;
    }
    step := Accept(Offer(ts[pos], dept, filled, candid, etu1, etu2, etu3), Width(candid));
  }

  /** The records already stored followed by the scan of the rest. */
  function Resume(done: seq<Offer>, rest: Scanned): Scanned {
    Scanned(done + rest.offers, rest.stop)
  }

  /** A step the loop goes on after moves its record, if any, from the rest
      of the scan to the stored prefix. */
  lemma ResumeStep(ts: seq<int>, pos: nat, pos': nat, tmax: int, i: int, i': int, whole: Scanned, done: seq<Offer>)
    requires pos < |ts| && i < tmax
    requires whole == Resume(done, Scan(ts[pos..], tmax - i))
    requires var s := ReadOffer(ts[pos..]);
             && (s.Skip? || s.Accept?)
             && pos' == pos + Used(s) && i' == i + |Taken(s)|
    ensures pos' <= |ts|
    ensures whole == Resume(done + Taken(ReadOffer(ts[pos..])), Scan(ts[pos'..], tmax - i'))
  {
    var s := ReadOffer(ts[pos..]);
    if s.Skip? {
      SkipRest(ts, pos, tmax - i);
      assert Taken(s) == [];
      AppendEmpty(done);
    } else {
      AcceptRest(ts, pos, pos', tmax - i, tmax - i');
      assert Taken(s) == [s.offer];
      AppendAssoc(done, [s.offer], Scan(ts[pos'..], tmax - i').offers);
    }
  }

  lemma SkipRest(ts: seq<int>, pos: nat, room: int)
    requires pos < |ts| && room > 0 && ReadOffer(ts[pos..]).Skip?
    ensures Scan(ts[pos..], room) == Scan(ts[pos + 1..], room)
  {
    assert ts[pos..][1..] == ts[pos + 1..];
  }

  lemma AcceptRest(ts: seq<int>, pos: nat, pos': nat, room: int, room': int)
    requires pos < |ts| && room > 0 && ReadOffer(ts[pos..]).Accept?
    requires pos' == pos + ReadOffer(ts[pos..]).width && room' == room - 1
    ensures pos' <= |ts|
    ensures var r := Scan(ts[pos'..], room');
            Scan(ts[pos..], room) == Scanned([ReadOffer(ts[pos..]).offer] + r.offers, r.stop)
  {
    var s := ReadOffer(ts[pos..]);
    ScanAccept(ts[pos..], room);
    assert ts[pos..][s.width..] == ts[pos'..];
  }

  /** A record cut short ends the scan with nothing more accepted. */
  lemma ResumeCut(ts: seq<int>, pos: nat, room: int)
    requires pos < |ts| && room > 0 && ReadOffer(ts[pos..]).Truncated?
    ensures Scan(ts[pos..], room) == Scanned([], Cut(ReadOffer(ts[pos..]).ref))
  {
  }

  /** One pass of the loop body of SAE.c:29-68 at cursor `pos`, with `i`
      rows filled: a sentinel is skipped, a reference of 1000 or more is
      written to `tRef[i]` at once, then the rest of the record is read and,
      if complete, written to the other six arrays. `cut` reports the `break`
      taken for a record cut short. */
  method FillStep(ts: seq<int>, pos: nat, i: nat, tables: OfferTables, tlog: int, tmax: int)
    returns (cut: bool, pos': nat, i': nat, tables': OfferTables, tlog': int)
    requires pos < |ts| && i < tmax && tables.Holds(tmax)
    ensures var s := ReadOffer(ts[pos..]);
            && (cut <==> s.Truncated?)
            && (s.Truncated? ==> tables' == tables.(ref := tables.ref[i := s.ref]) && tlog' == tlog && i' == i)
            && (!s.Truncated? ==>
                  && pos' == pos + Used(s) && i' == i + |Taken(s)| && tlog' == tlog + |Taken(s)|
                  && tables' == if s.Accept? then tables.Put(i, s.offer) else tables)
  {
    var ref := ts[pos];
    cut, pos', i', tables', tlog' := false, pos + 1, i, tables, tlog;
    if ref >= MinRef {
      tables' := tables'.(ref := tables'.ref[i := ref]);
      var step := ReadFields(ts, pos);
      if !step.Accept? {
        cut := true;
        return;
      }
      var o := step.offer;
      PutOverwritesRef(tables, i, ref, o);
      tables' := tables'.Put(i, o);
      i' := i + 1;
      tlog' := tlog + 1;
      pos' := pos + step.width;
    }
  }

  /** `remplirOffreStage` as written: the open check, then the loop. */
  method FillOffers(isOpen: bool, ts: seq<int>, t: OfferTables, tlog: int, tmax: int)
    returns (code: int, t': OfferTables, tlog': int)
    requires t.Holds(tmax)
    ensures OfferLoad(code, t', tlog') == LoadOffers(isOpen, ts, t, tlog, tmax)
  {
    if !isOpen {
      return -1, t, tlog;
    }
    ghost var done, rest;
    t', tlog', done, rest := FillRows(ts, t, tlog, tmax);
    assert done + [] == done;
    code := 1;
  }

  /** The loop of SAE.c:28-69, reading the tokens through the cursor `pos`
      and filling row `i`. It also hands back, as ghosts, the records stored
      and the scan of the tokens the loop left unread. */
  method FillRows(ts: seq<int>, t: OfferTables, tlog: int, tmax: int)
    returns (t': OfferTables, tlog': int, ghost done: seq<Offer>, ghost rest: Scanned)
    requires t.Holds(tmax)
    ensures Scan(ts, tmax) == Resume(done, rest) && rest.offers == []
    ensures t.Holds(|done|) && tlog' == tlog + |done|
    ensures !rest.stop.Cut? ==> t' == Stored(t, done)
    ensures rest.stop.Cut? ==>
              var stored := Stored(t, done);
              |done| < |stored.ref| && t' == stored.(ref := stored.ref[|done| := rest.stop.ref])
  {
    var i := 0;
    var pos := 0;
    t', tlog' := t, tlog;
    done := [];
    ghost var whole := Scan(ts, tmax);
    assert whole == Resume(done, Scan(ts[pos..], tmax - i)) by {
      assert ts[0..] == ts;
      assert [] + whole.offers == whole.offers;
    }
    while i < tmax && pos < |ts|
      invariant 0 <= pos <= |ts|
      invariant i == |done| <= Room(tmax)
      invariant tlog' == tlog + i
      invariant t' == Stored(t, done)
      invariant whole == Resume(done, Scan(ts[pos..], tmax - i))
      decreases |ts| - pos
    {
      ghost var s := ReadOffer(ts[pos..]);
      var cut, pos', i', t'', tlog'' := FillStep(ts, pos, i, t', tlog', tmax);
      if cut {
        ResumeCut(ts, pos, tmax - i);
        t' := t'';
        break;
      }
      StoredStep(t, done, s);
      ResumeStep(ts, pos, pos', tmax, i, i', whole, done);
      done := done + Taken(s);
      pos, i, t', tlog' := pos', i', t'', tlog'';
    }
    if i < tmax && pos == |ts| {
      assert ReadOffer(ts[pos..]) == End;
    }
    rest := Scan(ts[pos..], tmax - i);
  }
}
