/** The loop of `remplirOffreStage` (SAE.c:28-69) as a function of the
    remaining tokens and the number of free rows: the records it accepts, in
    input order, and why it stopped. */
module OfferScan {
  import opened OfferRecord
  import opened Sequences

  /** Why the loop ended: no integer left to read, the row limit `tmax`
      reached, or a record cut short after its reference was read. */
  datatype Stop = Exhausted | Full | Cut(ref: int)

  datatype Scanned = Scanned(offers: seq<Offer>, stop: Stop)

  /** Scans `ts` with room for `room` more records. */
  function Scan(ts: seq<int>, room: int): (r: Scanned)
    decreases |ts|
    ensures room <= 0 ==> r == Scanned([], Full)
    ensures |r.offers| <= room || |r.offers| == 0
    ensures r.stop.Full? ==> |r.offers| == room || room <= 0
    ensures r.stop.Cut? ==> |r.offers| < room && r.stop.ref >= MinRef
  {
    if room <= 0 then Scanned([], Full)
    else
      match ReadOffer(ts)
      case End => Scanned([], Exhausted)
      case Skip => Scan(ts[1..], room)
      case Truncated(ref) => Scanned([], Cut(ref))
      case Accept(o, w) =>
        var r := Scan(ts[w..], room - 1);
        Scanned([o] + r.offers, r.stop)
  }

  /** Every record the scan accepts is storable. */
  lemma {:induction false} ScanStorable(ts: seq<int>, room: int)
    ensures forall o :: o in Scan(ts, room).offers ==> Storable(o)
    decreases |ts|
  {
    if room > 0 {
      match ReadOffer(ts)
      case End =>
      case Skip => ScanStorable(ts[1..], room);
      case Truncated(_) =>
      case Accept(o, w) => ScanStorable(ts[w..], room - 1);
    }
  }

  /** The tokens of a list of records written one after another. */
  function Flatten(os: seq<Offer>): seq<int>
    decreases |os|
  {
    if os == [] then [] else Format(os[0]) + Flatten(os[1..])
  }

  lemma {:induction false} FlattenAppend(a: seq<Offer>, b: seq<Offer>)
    ensures Flatten(a + b) == Flatten(a) + Flatten(b)
    decreases |a|
  {
    if a == [] {
      assert a + b == b;
    } else {
      assert (a + b)[1..] == a[1..] + b;
      FlattenAppend(a[1..], b);
    }
  }

  /** Dropping a record's layout from its front leaves what followed. */
  lemma FormatThen(o: Offer, rest: seq<int>)
    ensures (Format(o) + rest)[Width(o.candid)..] == rest
  {
  }

  /** A token below 1000 is consumed on its own and the scan carries on with
      the next token, the room unchanged. */
  lemma SkipSentinel(x: int, rest: seq<int>, room: int)
    requires x < MinRef && room > 0
    ensures Scan([x] + rest, room) == Scan(rest, room)
  {
    assert ([x] + rest)[1..] == rest;
  }

  /** One accepted record heads the result of the scan over the tokens
      after it. */
  lemma ScanAccept(ts: seq<int>, room: int)
    requires room > 0 && ReadOffer(ts).Accept?
    ensures var s := ReadOffer(ts);
            var r := Scan(ts[s.width..], room - 1);
            Scan(ts, room) == Scanned([s.offer] + r.offers, r.stop)
  {
  }

  /** Records written in their layout are read back in order, and the scan
      then goes on with what follows them as if it were the whole input. */
  lemma {:induction false} ScanFormatted(os: seq<Offer>, rest: seq<int>, room: int)
    requires forall o :: o in os ==> Storable(o)
    requires |os| <= room
    ensures Scan(Flatten(os) + rest, room) ==
            Scanned(os + Scan(rest, room - |os|).offers, Scan(rest, room - |os|).stop)
    decreases |os|
  {
    if os == [] {
      assert Flatten(os) + rest == rest;
    } else {
      var o := os[0];
      var tail := Flatten(os[1..]) + rest;
      var ts := Format(o) + tail;
      assert o in os;
      ReadFormatted(o, tail);
      FormatThen(o, tail);
      ScanAccept(ts, room);
      var inner := Scan(tail, room - 1);
      assert Scan(ts, room) == Scanned([o] + inner.offers, inner.stop);
      assert forall p :: p in os[1..] ==> p in os;
      ScanFormatted(os[1..], rest, room - 1);
      assert room - 1 - |os[1..]| == room - |os|;
      var r := Scan(rest, room - |os|);
      assert inner == Scanned(os[1..] + r.offers, r.stop);
      ConsAppend(os, r.offers);
      assert Flatten(os) + rest == ts by {
        AppendAssoc(Format(o), Flatten(os[1..]), rest);
      }
    }
  }

  /** A well-formed file with fewer records than the room is read completely
      and the scan stops at end of input; with exactly as many, it stops
      because the rows are full. */
  lemma ScanWholeFile(os: seq<Offer>, room: int)
    requires forall o :: o in os ==> Storable(o)
    requires |os| <= room
    ensures Scan(Flatten(os), room) == Scanned(os, if |os| == room then Full else Exhausted)
  {
    ScanFormatted(os, [], room);
    assert Flatten(os) + [] == Flatten(os);
    assert os + [] == os;
  }

  /** Records beyond the room are silently ignored: the first `room` ones are
      kept and the scan reports the rows full. */
  lemma ScanOverCapacity(os: seq<Offer>, rest: seq<int>, room: nat)
    requires forall o :: o in os ==> Storable(o)
    requires room <= |os|
    ensures Scan(Flatten(os) + rest, room) == Scanned(os[..room], Full)
  {
    var head, tail := os[..room], os[room..];
    assert os == head + tail;
    FlattenAppend(head, tail);
    AppendAssoc(Flatten(head), Flatten(tail), rest);
    var ts := Flatten(head) + (Flatten(tail) + rest);
    assert Flatten(os) + rest == ts;
    assert forall p :: p in head ==> p in os;
    ScanFormatted(head, Flatten(tail) + rest, room);
    assert Scan(Flatten(tail) + rest, 0) == Scanned([], Full);
    assert head + [] == head;
  }

  /** A record cut short after well-formed ones stops the scan: the earlier
      records are kept and the cut record's reference is reported. */
  lemma ScanTruncated(os: seq<Offer>, o: Offer, m: nat, room: int)
    requires forall p :: p in os ==> Storable(p)
    requires |os| < room
    requires o.ref >= MinRef && 1 <= m < Width(o.candid)
    ensures Scan(Flatten(os) + Format(o)[..m], room) == Scanned(os, Cut(o.ref))
  {
    ScanFormatted(os, Format(o)[..m], room);
    ReadCutShort(o, m);
    assert os + [] == os;
  }

  /** The scan never meets a token below 1000 where a record should start. */
  predicate SkipFree(ts: seq<int>, room: int)
    decreases |ts|
  {
    room <= 0 ||
    match ReadOffer(ts)
    case Skip => false
    case Accept(_, w) => SkipFree(ts[w..], room - 1)
    case _ => true
  }

  /** Writing one more record in front of records that start `tail` gives
      records that start the longer input. */
  lemma UnflattenCons(o: Offer, os: seq<Offer>, tail: seq<int>, ts: seq<int>)
    requires ts == Format(o) + tail && Flatten(os) <= tail
    ensures Flatten([o] + os) <= ts
    ensures Flatten(os) == tail ==> Flatten([o] + os) == ts
  {
    assert ([o] + os)[0] == o;
    assert ([o] + os)[1..] == os;
    assert Flatten([o] + os) == Format(o) + Flatten(os);
    assert ts[..|Format(o) + Flatten(os)|] == Format(o) + tail[..|Flatten(os)|];
  }

  /** An accepted record is the layout at the front of the tokens and heads
      the scan's records. */
  lemma AcceptParts(ts: seq<int>, room: int, o: Offer, w: nat)
    requires room > 0 && ReadOffer(ts) == Accept(o, w)
    ensures ts == Format(o) + ts[w..]
    ensures Scan(ts, room) == Scanned([o] + Scan(ts[w..], room - 1).offers, Scan(ts[w..], room - 1).stop)
  {
    ReadLayout(ts);
    assert ts == ts[..w] + ts[w..];
    ScanAccept(ts, room);
  }

  /** The converse of ScanFormatted: when the scan skips nothing, the records
      it keeps, written back in their layout, are the front of the input, and
      the whole input when the scan ran to its end. */
  lemma {:induction false} ScanUnflatten(ts: seq<int>, room: int)
    requires SkipFree(ts, room)
    ensures var r := Scan(ts, room);
            && Flatten(r.offers) <= ts
            && (r.stop.Exhausted? ==> Flatten(r.offers) == ts)
    decreases |ts|
  {
    if room > 0 && ReadOffer(ts).Accept? {
      var s := ReadOffer(ts);
      var tail := ts[s.width..];
      ScanUnflatten(tail, room - 1);
      AcceptParts(ts, room, s.offer, s.width);
      UnflattenCons(s.offer, Scan(tail, room - 1).offers, tail, ts);
    }
  }
}
