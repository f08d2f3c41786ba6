/**
 The reactor runtime executes one tag at a time. Within a tag the reactions run in the one order the
 wiring and the order inside each reactor allow, each if and only if its trigger is present, and the
 ports are cleared at the end. Such a tag is a run of the step relation, the tag of the stop request
 and the last one included: whatever holds of all runs of the protocol holds under the runtime.
 */
module Schedule {
  import opened Basics
  import opened Protocol
  import opened Theorems

  /** The actions present at a tag: `sch_ref` with the length it will draw, the trigger, one `fetch_page` event. */
  datatype Tag = Tag(schRef: Option<nat>, trigger: bool, fetch: Option<nat>)

  function Issue(tag: Tag): (l: Label)
    ensures tag.schRef.Some? ==> l == SchRef(tag.schRef.value)
  {
    SchRef(if tag.schRef.Some? then tag.schRef.value else 0)
  }

  function Serve(tag: Tag): (l: Label)
    ensures tag.fetch.Some? ==> l == FetchPage(tag.fetch.value)
  {
    FetchPage(if tag.fetch.Some? then tag.fetch.value else 0)
  }

  ghost predicate Pending(s: State, tag: Tag) {
    && (tag.schRef.Some? ==> s.schRef > 0 && 1 <= tag.schRef.value <= MAX_LEN)
    && (tag.trigger ==> s.trigger > 0)
    && (tag.fetch.Some? ==> tag.fetch.value in s.fetch)
  }

  /** Only the flagged ports may be full. */
  ghost predicate OnlyFull(s: State, batchReq: bool, task: bool, result: bool, interim: bool, batchRsp: bool) {
    && (s.batchReq.Some? ==> batchReq) && (s.task.Some? ==> task) && (s.result.Some? ==> result)
    && (s.interim.Some? ==> interim) && (s.batchRsp.Some? ==> batchRsp)
  }

  ghost predicate PortsEmpty(s: State) {
    OnlyFull(s, false, false, false, false, false)
  }

  /** A reaction runs, as a legal step, if and only if its trigger is present. */
  ghost predicate Fires(s: State, present: bool, l: Label, t: State) {
    if present then Enabled(s, l) && Step(s, l) == Ran(t) else t == s
  }

  lemma Fire(s: State, present: bool, l: Label) returns (t: State)
    requires Reachable(s) && (present ==> Enabled(s, l))
    ensures Fires(s, present, l, t) && Reachable(t)
  {
    t := s;
    if present {
      ReachableStep(s, l);
      t := Step(s, l).s;
    }
  }

  lemma IssueAndSplit(s: State, tag: Tag) returns (s1: State, s2: State)
    requires Reachable(s) && PortsEmpty(s) && Pending(s, tag)
    ensures Fires(s, tag.schRef.Some?, Issue(tag), s1)
    ensures Fires(s1, s1.batchReq.Some?, BatchRequest, s2)
    ensures Reachable(s2) && PortsEmpty(s2)
    ensures s2.trigger >= s.trigger && s2.fetch == s.fetch
  {
    hide Reachable;
    s1 := Fire(s, tag.schRef.Some?, Issue(tag));
    assert OnlyFull(s1, true, false, false, false, false) && s1.trigger == s.trigger && s1.fetch == s.fetch;
    s2 := Fire(s1, s1.batchReq.Some?, BatchRequest);
  }

  lemma SendAndAccept(s: State, tag: Tag) returns (s1: State, s2: State)
    requires Reachable(s) && PortsEmpty(s) && (tag.trigger ==> s.trigger > 0)
    ensures Fires(s, tag.trigger, StorageReqTrigger, s1)
    ensures Fires(s1, s1.task.Some?, Task, s2)
    ensures Reachable(s2) && PortsEmpty(s2) && s.fetch <= s2.fetch
  {
    hide Reachable;
    s1 := Fire(s, tag.trigger, StorageReqTrigger);
    assert OnlyFull(s1, false, true, false, false, false) && s1.fetch == s.fetch;
    s2 := Fire(s1, s1.task.Some?, Task);
  }

  lemma ReplyFills(s: State)
    requires Enabled(s, WorkstreamRsp) && OnlyFull(s, false, false, true, false, false) && ProcessDiskResponse(s).Ran?
    ensures OnlyFull(ProcessDiskResponse(s).s, false, false, false, true, true)
  {
  }

  lemma ServeAndReply(s: State, tag: Tag) returns (s1: State, s2: State)
    requires Reachable(s) && PortsEmpty(s) && (tag.fetch.Some? ==> tag.fetch.value in s.fetch)
    ensures Fires(s, tag.fetch.Some?, Serve(tag), s1)
    ensures Fires(s1, s1.result.Some?, WorkstreamRsp, s2)
    ensures Reachable(s2) && OnlyFull(s2, false, false, false, true, true)
  {
    hide Reachable;
    s1 := Fire(s, tag.fetch.Some?, Serve(tag));
    assert OnlyFull(s1, false, false, true, false, false);
    s2 := Fire(s1, s1.result.Some?, WorkstreamRsp);
    if s1.result.Some? {
      ReplyFills(s1);
    }
  }

  lemma FillAndFinish(s: State) returns (s1: State, s2: State)
    requires Reachable(s) && OnlyFull(s, false, false, false, true, true)
    ensures Fires(s, s.interim.Some?, InterimRsp, s1)
    ensures Fires(s1, s1.batchRsp.Some?, BatchRsp, s2)
    ensures Reachable(s2) && PortsEmpty(s2)
  {
    hide Reachable;
    s1 := Fire(s, s.interim.Some?, InterimRsp);
    assert OnlyFull(s1, false, false, false, false, true);
    s2 := Fire(s1, s1.batchRsp.Some?, BatchRsp);
  }

  /**
   From empty ports, the eight reactions run in order, each a legal step whenever its trigger is
   present, and the ports end empty: no port is written while it is full and none is left unread.
   */
  lemma TagIsRun(s: State, tag: Tag)
    returns (s1: State, s2: State, s3: State, s4: State, s5: State, s6: State, s7: State, s8: State)
    requires Reachable(s) && PortsEmpty(s) && Pending(s, tag)
    ensures Fires(s, tag.schRef.Some?, Issue(tag), s1)
    ensures Fires(s1, s1.batchReq.Some?, BatchRequest, s2)
    ensures Fires(s2, tag.trigger, StorageReqTrigger, s3)
    ensures Fires(s3, s3.task.Some?, Task, s4)
    ensures Fires(s4, tag.fetch.Some?, Serve(tag), s5)
    ensures Fires(s5, s5.result.Some?, WorkstreamRsp, s6)
    ensures Fires(s6, s6.interim.Some?, InterimRsp, s7)
    ensures Fires(s7, s7.batchRsp.Some?, BatchRsp, s8)
    ensures Reachable(s8) && PortsEmpty(s8)
  {
    hide Fires, Reachable;
    s1, s2 := IssueAndSplit(s, tag);
    s3, s4 := SendAndAccept(s2, tag);
    s5, s6 := ServeAndReply(s4, tag);
    s7, s8 := FillAndFinish(s6);
  }
}
