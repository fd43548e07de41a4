/** Exactly when every exported batch obeys the packet rule, although the drain loop looks at the number of items
    only. */
module SpanPacket {
  import opened Prelude
  import opened SpanPipeline
  import opened SpanTheorems
  import opened SpanGuarantees

  /** Every batch ever exported is below MaxPacketSize without its last item. */
  ghost predicate AlwaysFits(o: Options) {
    forall s, i :: Reachable(o, s) && 0 <= i < |s.exported| ==> Fits(o, s.exported[i])
  }

  lemma TotalSizeOne(x: Item)
    ensures TotalSize([x]) == SizeOf(x)
  {
    assert [x][..0] == [];
  }

  /** Two OnEnd calls have passed their stop check when Shutdown comes; the span of the first is drained. */
  lemma BigSpanDrained(o: Options, big: Span, small: Span) returns (acts: seq<Action>, s: State)
    requires o.maxQueueSize >= 1 && o.maxExportBatchSize != 1
    ensures RunFrom(o, Init(), acts) == Some(s)
    ensures s.worker.Draining? && s.batch == [Data(big)] && s.queue == [] && !s.closed && s.mutex.Free?
    ensures s.exported == [] && 1 in s.clients && s.clients[1] == ClientPc.Send(Call.End(small))
  {
    hide RunFrom;
    acts, s := TwoSenders(o, big, small);
    acts, s := Extend(o, acts, s, Client(0, SendItem));
    acts, s := Extend(o, acts, s, Shutdown);
    acts, s := Extend(o, acts, s, Worker(TakeStop));
    acts, s := Extend(o, acts, s, Worker(DrainReceive));
    acts, s := Extend(o, acts, s, Worker(DrainAppend));
  }

  lemma TwoSenders(o: Options, big: Span, small: Span) returns (acts: seq<Action>, s: State)
    ensures RunFrom(o, Init(), acts) == Some(s)
    ensures s == Init().(clients := map[0 := ClientPc.Send(Call.End(big)), 1 := ClientPc.Send(Call.End(small))])
  {
    acts, s := Extend(o, [], Init(), Client(0, StartOnEnd(big)));
    hide RunFrom;
    acts, s := Extend(o, acts, s, Client(0, CheckStop));
    acts, s := Extend(o, acts, s, Client(1, StartOnEnd(small)));
    acts, s := Extend(o, acts, s, Client(1, CheckStop));
    assert s.clients == map[0 := ClientPc.Send(Call.End(big)), 1 := ClientPc.Send(Call.End(small))];
  }

  /** The second span joins the first. */
  lemma SmallSpanDrained(o: Options, big: Span, small: Span) returns (acts: seq<Action>, s: State)
    requires o.maxQueueSize >= 1 && o.maxExportBatchSize != 1
    ensures RunFrom(o, Init(), acts) == Some(s)
    ensures s.batch == [Data(big), Data(small)] && s.queue == [] && !s.closed && s.mutex.Free? && s.exported == []
    ensures s.worker == if o.maxExportBatchSize == 2 then ExportReset(InDrain) else Draining
  {
    hide RunFrom;
    acts, s := BigSpanDrained(o, big, small);
    acts, s := Extend(o, acts, s, Client(1, SendItem));
    acts, s := Extend(o, acts, s, Worker(DrainReceive));
    acts, s := Extend(o, acts, s, Worker(DrainAppend));
  }

  /** Both go out in one batch. */
  lemma BothExported(o: Options, big: Span, small: Span) returns (s: State)
    requires o.maxQueueSize >= 1 && o.maxExportBatchSize != 1
    ensures Reachable(o, s) && s.exported == [[Data(big), Data(small)]]
  {
    var acts;
    hide RunFrom;
    acts, s := SmallSpanDrained(o, big, small);
    if o.maxExportBatchSize != 2 {
      acts, s := Extend(o, acts, s, Worker(SeeEmpty));
      acts, s := Extend(o, acts, s, Worker(CloseQueue));
      acts, s := Extend(o, acts, s, Worker(DrainEnd));
    }
    acts, s := Extend(o, acts, s, Worker(ResetTimer));
    acts, s := Extend(o, acts, s, Worker(Lock));
  }

  /** Every exported batch obeys the packet rule, in every run, if and only if batches hold one span. */
  lemma PacketRuleIff(o: Options)
    requires o.maxQueueSize >= 1 && o.maxPacketSize > 0
    ensures AlwaysFits(o) <==> o.maxExportBatchSize == 1
  {
    if o.maxExportBatchSize == 1 {
      forall s, i | Reachable(o, s) && 0 <= i < |s.exported|
        ensures Fits(o, s.exported[i])
      {
        BatchBounds(o, s);
        assert |s.exported[i]| == 1;
      }
    } else {
      var big := Span(0, o.maxPacketSize);
      var s := BothExported(o, big, Span(1, 0));
      TotalSizeOne(Data(big));
      assert s.exported[0][..1] == [Data(big)];
      assert !Fits(o, s.exported[0]);
    }
  }
}
