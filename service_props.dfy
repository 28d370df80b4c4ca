/** What updateServiceVariables and clearServiceVariables write, stated over the write
    lists and over the dictionaries they fill. */
module ServiceProps {
  import opened Wrappers
  import opened JsValues
  import opened Telemetry
  import opened VarIds
  import opened IdParse
  import opened Projection

  /** No write in `ws` touches field f. */
  predicate Avoids(ws: seq<SvcWrite>, f: ServiceField) {
    forall i :: 0 <= i < |ws| ==> ws[i].0 != f
  }

  /** No write in `ws` is to an audio field. */
  predicate NonAudio(ws: seq<SvcWrite>) {
    forall i :: 0 <= i < |ws| ==> !ws[i].0.Audio?
  }

  lemma AvoidsNone(ws: seq<SvcWrite>, f: ServiceField)
    requires Avoids(ws, f)
    ensures LastWrite(ws, f) == None
  {
    LastWriteSome(ws, f);
  }

  /** The dictionary lookup of a service variable: the last write to its field decides. */
  lemma SvcLookup(m: map<string, Value>, safe: string, ws: seq<SvcWrite>, f: ServiceField)
    ensures LastWrite(ws, f).Some? ==> ServiceKey(safe, f) in PutSvc(m, safe, ws)
                                        && PutSvc(m, safe, ws)[ServiceKey(safe, f)] == LastWrite(ws, f).value
    ensures LastWrite(ws, f).None? ==> (ServiceKey(safe, f) in PutSvc(m, safe, ws) <==> ServiceKey(safe, f) in m)
  {
    forall g: ServiceField | SvcKey(safe)(g) == SvcKey(safe)(f)
      ensures g == f
    {
      ServiceKeyInjective(safe, g, f);
    }
    PutLookup(m, SvcKey(safe), ws, f);
  }

  lemma SvcFieldsConcat(a: seq<SvcWrite>, b: seq<SvcWrite>)
    ensures SvcFields(a + b) == SvcFields(a) + SvcFields(b)
  {
  }

  // ------------------------------------------------------------ sources

  /** A source block writes the ten common fields, plus the seven satellite fields for a
      source of type "sat", all under its own slot. */
  lemma SourceWritesFields(slot: SourceSlot, src: Source)
    ensures SvcFields(SourceWrites(slot, src))
            == if src.kind == Has("sat") then SourceBlock(slot) else SourceBlock(slot)[..10]
  {
  }

  /** The first ten fields of a source block are the common (non-satellite) ones. */
  lemma CommonBlockMember(slot: SourceSlot, x: SourceField)
    ensures ServiceField.Source(slot, x) in SourceBlock(slot)[..10] <==> !IsSatField(x)
  {
    if IsSatField(x) {
      SatNotCommon(slot, x);
    } else {
      CommonInBlock(slot, x);
    }
  }

  lemma CommonInBlock(slot: SourceSlot, x: SourceField)
    requires !IsSatField(x)
    ensures ServiceField.Source(slot, x) in SourceBlock(slot)[..10]
  {
    var b := SourceBlock(slot)[..10];
    match x
    case SrcType => assert b[0] == ServiceField.Source(slot, x);
    case Receiving => assert b[1] == ServiceField.Source(slot, x);
    case Bitrate => assert b[2] == ServiceField.Source(slot, x);
    case BitrateRaw => assert b[3] == ServiceField.Source(slot, x);
    case CcErrors => assert b[4] == ServiceField.Source(slot, x);
    case PidErrors => assert b[5] == ServiceField.Source(slot, x);
    case PmtErrors => assert b[6] == ServiceField.Source(slot, x);
    case SyncErrors => assert b[7] == ServiceField.Source(slot, x);
    case TransportErrors => assert b[8] == ServiceField.Source(slot, x);
    case SyncLoss => assert b[9] == ServiceField.Source(slot, x);
  }

  lemma SatNotCommon(slot: SourceSlot, x: SourceField)
    requires IsSatField(x)
    ensures ServiceField.Source(slot, x) !in SourceBlock(slot)[..10]
  {
    var b := SourceBlock(slot)[..10];
    assert forall i :: 0 <= i < 10 ==> !IsSatField(b[i].sf);
  }

  /** Satellite fields are written exactly for a source whose type is "sat". */
  lemma SatelliteFieldsOnlyForSat(slot: SourceSlot, src: Source, x: SourceField)
    ensures ServiceField.Source(slot, x) in SvcFields(SourceWrites(slot, src))
            <==> !IsSatField(x) || src.kind == Has("sat")
  {
    SourceWritesFields(slot, src);
    if src.kind == Has("sat") {
      InSourceBlock(slot, x);
    } else {
      CommonBlockMember(slot, x);
    }
  }

  lemma SourceWritesSlot(slot: SourceSlot, src: Source)
    ensures forall i :: 0 <= i < |SourceWrites(slot, src)| ==>
              SourceWrites(slot, src)[i].0.Source? && SourceWrites(slot, src)[i].0.slot == slot
  {
    SourceWritesFields(slot, src);
    var fs := SvcFields(SourceWrites(slot, src));
    assert forall i :: 0 <= i < |fs| ==> fs[i] == SourceWrites(slot, src)[i].0;
  }

  /** Every write of the source loop is to a source field. */
  lemma {:induction false} SourcesWritesAreSource(srcs: seq<Source>)
    ensures forall i :: 0 <= i < |SourcesWrites(srcs)| ==> SourcesWrites(srcs)[i].0.Source?
    decreases |srcs|
  {
    if srcs != [] {
      var n := |srcs| - 1;
      var p := SourcesWrites(srcs[..n]);
      var last := SourceWrites(SlotOf(n), srcs[n]);
      SourcesWritesAreSource(srcs[..n]);
      SourceWritesSlot(SlotOf(n), srcs[n]);
      var ws: seq<SvcWrite> := p + last;
      assert SourcesWrites(srcs) == ws;
      forall i | 0 <= i < |ws|
        ensures ws[i].0.Source?
      {
        if i >= |p| {
          assert ws[i] == last[i - |p|];
        }
      }
    }
  }

  /** Source 0 feeds the primary fields and every later source the secondary ones: a
      primary write comes from the first source, a secondary write from a source at
      index 1 or later, and the first source's writes come first. */
  lemma {:induction false} SourcesWritesSlots(srcs: seq<Source>)
    ensures forall w :: w in SourcesWrites(srcs) && w.0.Source? && w.0.slot == Primary ==>
              |srcs| > 0 && w in SourceWrites(Primary, srcs[0])
    ensures forall w :: w in SourcesWrites(srcs) && w.0.Source? && w.0.slot == Secondary ==>
              exists j :: 1 <= j < |srcs| && w in SourceWrites(Secondary, srcs[j])
    ensures |srcs| > 0 ==> SourceWrites(Primary, srcs[0]) <= SourcesWrites(srcs)
    decreases |srcs|
  {
    if srcs != [] {
      var n := |srcs| - 1;
      var pre := srcs[..n];
      var last := SourceWrites(SlotOf(n), srcs[n]);
      assert SourcesWrites(srcs) == SourcesWrites(pre) + last;
      SourcesWritesSlots(pre);
      SourceWritesSlot(SlotOf(n), srcs[n]);
      if n > 0 {
        assert pre[0] == srcs[0];
      }
      forall w | w in SourcesWrites(srcs) && w.0.Source? && w.0.slot == Secondary
        ensures exists j :: 1 <= j < |srcs| && w in SourceWrites(Secondary, srcs[j])
      {
        if w in SourcesWrites(pre) {
          var j :| 1 <= j < |pre| && w in SourceWrites(Secondary, pre[j]);
          assert pre[j] == srcs[j];
        } else {
          assert w in last;
        }
      }
      forall w | w in SourcesWrites(srcs) && w.0.Source? && w.0.slot == Primary
        ensures |srcs| > 0 && w in SourceWrites(Primary, srcs[0])
      {
        if w !in SourcesWrites(pre) {
          assert w in last;
        }
      }
    }
  }

  // ------------------------------------------------------------ audio

  lemma {:induction false} AudioWritesLength(auds: seq<Stream>)
    ensures |AudioWrites(auds)| == 7 * |auds|
    decreases |auds|
  {
    if auds != [] {
      AudioWritesLength(auds[..|auds| - 1]);
    }
  }

  /** The audio writes are the declared audio blocks 1 to |auds|, in that order. */
  lemma {:induction false} AudioWritesFields(auds: seq<Stream>)
    ensures SvcFields(AudioWrites(auds)) == AudioBlocks(|auds|)
    decreases |auds|
  {
    if auds != [] {
      var n := |auds|;
      AudioWritesFields(auds[..n - 1]);
      SvcFieldsConcat(AudioWrites(auds[..n - 1]), AudioStreamWrites(n, auds[n - 1]));
    }
  }

  /** Audio stream number n (counting from 1, in filter order) owns the n-th block of
      seven writes. */
  lemma {:induction false} AudioNumbering(auds: seq<Stream>, n: nat)
    requires 1 <= n <= |auds|
    ensures 7 * n <= |AudioWrites(auds)|
    ensures AudioWrites(auds)[7 * (n - 1)..7 * n] == AudioStreamWrites(n, auds[n - 1])
    decreases |auds|
  {
    var k := |auds|;
    var pre := auds[..k - 1];
    AudioWritesLength(auds);
    AudioWritesLength(pre);
    assert AudioWrites(auds) == AudioWrites(pre) + AudioStreamWrites(k, auds[k - 1]);
    if n < k {
      AudioNumbering(pre, n);
      assert pre[n - 1] == auds[n - 1];
      assert AudioWrites(auds)[7 * (n - 1)..7 * n] == AudioWrites(pre)[7 * (n - 1)..7 * n];
    } else {
      assert AudioWrites(auds)[7 * (n - 1)..7 * n] == AudioStreamWrites(k, auds[k - 1]);
    }
  }

  // ------------------------------------------------------------ the whole service

  /** The decode writes apart from the audio blocks. */
  function DecodeHead(st: ServiceStatus): seq<SvcWrite> {
    if st.processings.Has? && st.processings.value.decode.Has? then
      var d := st.processings.value.decode.value;
      DecodeHeader(d) + (if d.streams.Has? then VideoWrites(d.streams.value) else [])
    else []
  }

  /** The audio streams a status reports, in filter order. */
  function AudioList(st: ServiceStatus): (auds: seq<Stream>)
    ensures |auds| == AudioCount(st)
  {
    if st.processings.Has? && st.processings.value.decode.Has?
       && st.processings.value.decode.value.streams.Has?
    then AudioStreams(st.processings.value.decode.value.streams.value)
    else []
  }

  lemma DecodeWritesSplit(st: ServiceStatus)
    ensures DecodeWrites(st) == DecodeHead(st) + AudioWrites(AudioList(st))
  {
    if st.processings.Has? && st.processings.value.decode.Has? {
      var d := st.processings.value.decode.value;
      if d.streams.Has? {
        assert DecodeWrites(st) == DecodeHeader(d) + (VideoWrites(d.streams.value) + AudioWrites(AudioList(st)));
      } else {
        assert DecodeWrites(st) == DecodeHead(st) + [];
      }
    }
  }

  lemma NonAudioConcat(a: seq<SvcWrite>, b: seq<SvcWrite>)
    requires NonAudio(a) && NonAudio(b)
    ensures NonAudio(a + b)
  {
    forall i | 0 <= i < |a + b|
      ensures !(a + b)[i].0.Audio?
    {
      if i >= |a| {
        assert (a + b)[i] == b[i - |a|];
      }
    }
  }

  lemma InputHeaderNonAudio(inp: Inputs)
    ensures NonAudio(InputHeader(inp))
  {
  }

  lemma SourcesNonAudio(srcs: seq<Source>)
    ensures NonAudio(SourcesWrites(srcs))
  {
    SourcesWritesAreSource(srcs);
  }

  lemma InputNonAudio(st: ServiceStatus)
    ensures NonAudio(InputWrites(st))
  {
    match st.inputs
    case Has(inp) =>
      InputHeaderNonAudio(inp);
      if inp.sources.Has? {
        SourcesNonAudio(inp.sources.value);
        NonAudioConcat(InputHeader(inp), SourcesWrites(inp.sources.value));
        assert InputWrites(st) == InputHeader(inp) + SourcesWrites(inp.sources.value);
      } else {
        assert InputWrites(st) == InputHeader(inp) + [];
      }
    case Absent =>
    case Null =>
  }

  lemma DecodeHeadNonAudio(st: ServiceStatus)
    ensures NonAudio(DecodeHead(st))
  {
    if st.processings.Has? && st.processings.value.decode.Has? {
      var d := st.processings.value.decode.value;
      DecodeHeaderNonAudio(d);
      if d.streams.Has? {
        VideoNonAudio(d.streams.value);
        NonAudioConcat(DecodeHeader(d), VideoWrites(d.streams.value));
      } else {
        assert DecodeHead(st) == DecodeHeader(d) + [];
      }
    }
  }

  lemma DecodeHeaderNonAudio(d: Decode)
    ensures NonAudio(DecodeHeader(d))
  {
  }

  lemma VideoNonAudio(streams: seq<Stream>)
    ensures NonAudio(VideoWrites(streams))
  {
  }

  lemma OutputNonAudio(st: ServiceStatus)
    ensures NonAudio(OutputWrites(st))
  {
  }

  /** Every write of updateServiceVariables sits in one of three runs: non-audio writes,
      the audio blocks, then non-audio writes again. */
  lemma ServiceWritesShape(st: ServiceStatus)
    ensures ServiceWrites(st)
            == (BasicWrites(st) + InputWrites(st) + DecodeHead(st)) + AudioWrites(AudioList(st)) + OutputWrites(st)
    ensures NonAudio(BasicWrites(st) + InputWrites(st) + DecodeHead(st)) && NonAudio(OutputWrites(st))
  {
    DecodeWritesSplit(st);
    Regroup(BasicWrites(st), InputWrites(st), DecodeHead(st), AudioWrites(AudioList(st)), OutputWrites(st));
    NonAudioParts(st);
  }

  lemma Regroup(b: seq<SvcWrite>, i: seq<SvcWrite>, dh: seq<SvcWrite>, aw: seq<SvcWrite>, o: seq<SvcWrite>)
    ensures b + i + (dh + aw) + o == (b + i + dh) + aw + o
  {
  }

  lemma NonAudioParts(st: ServiceStatus)
    ensures NonAudio(BasicWrites(st) + InputWrites(st) + DecodeHead(st)) && NonAudio(OutputWrites(st))
  {
    InputNonAudio(st);
    DecodeHeadNonAudio(st);
    OutputNonAudio(st);
    NonAudioConcat(BasicWrites(st), InputWrites(st));
    NonAudioConcat(BasicWrites(st) + InputWrites(st), DecodeHead(st));
  }

  /** Every write in `ws` is to a declared per-service field. */
  predicate AllDeclared(ws: seq<SvcWrite>) {
    forall i :: 0 <= i < |ws| ==> ServiceDeclared(ws[i].0)
  }

  lemma AllDeclaredConcat(a: seq<SvcWrite>, b: seq<SvcWrite>)
    ensures AllDeclared(a + b) <==> AllDeclared(a) && AllDeclared(b)
  {
    if AllDeclared(a + b) {
      forall i | 0 <= i < |a|
        ensures ServiceDeclared(a[i].0)
      {
        assert (a + b)[i] == a[i];
      }
      forall i | 0 <= i < |b|
        ensures ServiceDeclared(b[i].0)
      {
        assert (a + b)[|a| + i] == b[i];
      }
    }
    if AllDeclared(a) && AllDeclared(b) {
      forall i | 0 <= i < |a + b|
        ensures ServiceDeclared((a + b)[i].0)
      {
        if i >= |a| {
          assert (a + b)[i] == b[i - |a|];
        }
      }
    }
  }

  /** The audio blocks are all declared exactly when there are at most eight of them. */
  lemma AudioWritesDeclared(auds: seq<Stream>)
    ensures AllDeclared(AudioWrites(auds)) <==> |auds| <= 8
  {
    AudioWritesFields(auds);
    if |auds| <= 8 {
      AudioBlocksDeclared(AudioWrites(auds), |auds|);
    } else {
      AudioBlocksUndeclared(AudioWrites(auds), |auds|);
    }
  }

  lemma AudioBlocksDeclared(ws: seq<SvcWrite>, k: nat)
    requires SvcFields(ws) == AudioBlocks(k) && k <= 8
    ensures AllDeclared(ws)
  {
    var fs := SvcFields(ws);
    forall j | 0 <= j < |ws|
      ensures ServiceDeclared(ws[j].0)
    {
      assert fs[j] in AudioBlocks(k);
      AudioBlocksMember(k, fs[j]);
    }
  }

  lemma AudioBlocksUndeclared(ws: seq<SvcWrite>, k: nat)
    requires SvcFields(ws) == AudioBlocks(k) && k > 8
    ensures !AllDeclared(ws)
  {
    var fs := SvcFields(ws);
    AudioBlocksMember(k, Audio(k, APid));
    var j :| 0 <= j < |fs| && fs[j] == Audio(k, APid);
    assert !ServiceDeclared(ws[j].0);
  }

  lemma NonAudioDeclared(ws: seq<SvcWrite>)
    requires NonAudio(ws)
    ensures AllDeclared(ws)
  {
  }

  /** Every id updateServiceVariables writes is among the declared per-service fields
      exactly when the status has at most eight audio streams. */
  lemma ServiceWritesDeclared(st: ServiceStatus)
    ensures AllDeclared(ServiceWrites(st)) <==> AudioCount(st) <= 8
  {
    ServiceWritesShape(st);
    var pre := BasicWrites(st) + InputWrites(st) + DecodeHead(st);
    var aw := AudioWrites(AudioList(st));
    var post := OutputWrites(st);
    NonAudioDeclared(pre);
    NonAudioDeclared(post);
    AudioWritesDeclared(AudioList(st));
    AllDeclaredConcat(pre, aw);
    AllDeclaredConcat(pre + aw, post);
  }

  /** An empty status object writes only uptime 0 and running state "unknown". */
  lemma EmptyStatusWrites(safe: string)
    ensures ServiceWrites(EmptyStatus) == [(Uptime, Num(0)), (RunningState, Str("unknown"))]
    ensures ServiceVars(safe, EmptyStatus)
            == map[ServiceKey(safe, Uptime) := Num(0), ServiceKey(safe, RunningState) := Str("unknown")]
  {
    var ws := [(Uptime, Num(0)), (RunningState, Str("unknown"))];
    assert ServiceWrites(EmptyStatus) == ws;
    assert ws[..1] == [(Uptime, Num(0))];
    assert ws[..1][..0] == [];
    assert Put(map[], SvcKey(safe), ws[..1]) == map[ServiceKey(safe, Uptime) := Num(0)];
  }

  /** The value the input block gives active_source. */
  function ActiveSourceText(inp: Inputs): Value {
    if inp.activeSourceIndex == Has(0) then Str("Primary") else Str("Secondary")
  }

  lemma InputActiveSource(st: ServiceStatus)
    ensures LastWrite(InputWrites(st), ActiveSource)
            == if st.inputs.Has? then Some(ActiveSourceText(st.inputs.value)) else None
  {
    match st.inputs
    case Has(inp) =>
      var h := InputHeader(inp);
      var tail := if inp.sources.Has? then SourcesWrites(inp.sources.value) else [];
      if inp.sources.Has? {
        SourcesWritesAreSource(inp.sources.value);
      }
      var ws := h + tail;
      assert InputWrites(st) == ws;
      forall i | 0 < i < |ws|
        ensures ws[i].0 != ActiveSource
      {
        if i >= |h| {
          assert ws[i] == tail[i - |h|];
        }
      }
      LastWriteAt(ws, ActiveSource, 0);
    case Absent =>
    case Null =>
  }

  lemma AudioAvoids(auds: seq<Stream>, f: ServiceField)
    requires !f.Audio?
    ensures LastWrite(AudioWrites(auds), f) == None
  {
    var aw := AudioWrites(auds);
    AudioWritesFields(auds);
    assert forall j :: 0 <= j < |aw| ==> aw[j].0 == SvcFields(aw)[j];
    AudioBlocksMember(|auds|, f);
    AvoidsNone(aw, f);
  }

  lemma ActiveSourceLastWrite(st: ServiceStatus)
    ensures LastWrite(ServiceWrites(st), ActiveSource)
            == if st.inputs.Has? then Some(ActiveSourceText(st.inputs.value)) else None
  {
    ServiceWritesShape(st);
    var b, i, dh, aw, o := BasicWrites(st), InputWrites(st), DecodeHead(st), AudioWrites(AudioList(st)), OutputWrites(st);
    AudioAvoids(AudioList(st), ActiveSource);
    DecodeHeadAvoids(st);
    OutputAvoids(st);
    BasicAvoids(st);
    InputActiveSource(st);
    LastWriteConcat(b, i, ActiveSource);
    LastWriteConcat(b + i, dh, ActiveSource);
    LastWriteConcat(b + i + dh, aw, ActiveSource);
    LastWriteConcat(b + i + dh + aw, o, ActiveSource);
  }

  lemma OutputAvoids(st: ServiceStatus)
    ensures LastWrite(OutputWrites(st), ActiveSource) == None
  {
    AvoidsNone(OutputWrites(st), ActiveSource);
  }

  lemma BasicAvoids(st: ServiceStatus)
    ensures LastWrite(BasicWrites(st), ActiveSource) == None
  {
    AvoidsNone(BasicWrites(st), ActiveSource);
  }

  lemma DecodeHeadAvoids(st: ServiceStatus)
    ensures LastWrite(DecodeHead(st), ActiveSource) == None
  {
    if st.processings.Has? && st.processings.value.decode.Has? {
      var d := st.processings.value.decode.value;
      var v := if d.streams.Has? then VideoWrites(d.streams.value) else [];
      assert DecodeHead(st) == DecodeHeader(d) + v;
      DecodeHeaderAvoids(d);
      if d.streams.Has? {
        VideoAvoids(d.streams.value);
      }
      LastWriteConcat(DecodeHeader(d), v, ActiveSource);
    }
  }

  lemma DecodeHeaderAvoids(d: Decode)
    ensures LastWrite(DecodeHeader(d), ActiveSource) == None
  {
    AvoidsNone(DecodeHeader(d), ActiveSource);
  }

  lemma VideoAvoids(streams: seq<Stream>)
    ensures LastWrite(VideoWrites(streams), ActiveSource) == None
  {
    assert !IsVideoField(ActiveSource);
    AvoidsNone(VideoWrites(streams), ActiveSource);
  }

  /** active_source is written exactly when the status has inputs, and it reads
      "Primary" exactly when activeSourceIndex is 0 ("Secondary" otherwise). */
  lemma ActiveSourceValue(safe: string, st: ServiceStatus)
    ensures ServiceKey(safe, ActiveSource) in ServiceVars(safe, st) <==> st.inputs.Has?
    ensures st.inputs.Has? ==>
              (ServiceVars(safe, st)[ServiceKey(safe, ActiveSource)] == Str("Primary")
               <==> st.inputs.value.activeSourceIndex == Has(0))
    ensures st.inputs.Has? && st.inputs.value.activeSourceIndex != Has(0) ==>
              ServiceVars(safe, st)[ServiceKey(safe, ActiveSource)] == Str("Secondary")
  {
    ActiveSourceLastWrite(st);
    SvcLookup(map[], safe, ServiceWrites(st), ActiveSource);
  }

  // ------------------------------------------------------------ clearing

  /** Six writes in turn. */
  lemma PutSix<F>(m: map<string, Value>, key: F -> string, ws: seq<(F, Value)>)
    requires |ws| == 6
    ensures Put(m, key, ws)
            == m[key(ws[0].0) := ws[0].1][key(ws[1].0) := ws[1].1][key(ws[2].0) := ws[2].1]
                [key(ws[3].0) := ws[3].1][key(ws[4].0) := ws[4].1][key(ws[5].0) := ws[5].1]
  {
    PutSnoc(m, key, [], ws[0]);
    PutSnoc(m, key, ws[..1], ws[1]);
    PutSnoc(m, key, ws[..2], ws[2]);
    PutSnoc(m, key, ws[..3], ws[3]);
    PutSnoc(m, key, ws[..4], ws[4]);
    PutSnoc(m, key, ws[..5], ws[5]);
    assert [] + [ws[0]] == ws[..1];
    assert ws[..1] + [ws[1]] == ws[..2];
    assert ws[..2] + [ws[2]] == ws[..3];
    assert ws[..3] + [ws[3]] == ws[..4];
    assert ws[..4] + [ws[4]] == ws[..5];
    assert ws[..5] + [ws[5]] == ws;
  }

  /** clearServiceVariables writes exactly six ids: the two source bitrates and the
      video bitrate read "No Data", the running state "offline", both receiving flags "No". */
  lemma ClearVarsExact(safe: string)
    ensures ClearVars(safe)
            == map[ServiceKey(safe, ServiceField.Source(Primary, Bitrate)) := Str("No Data"),
                   ServiceKey(safe, ServiceField.Source(Secondary, Bitrate)) := Str("No Data"),
                   ServiceKey(safe, VideoBitrate) := Str("No Data"),
                   ServiceKey(safe, RunningState) := Str("offline"),
                   ServiceKey(safe, ServiceField.Source(Primary, Receiving)) := Str("No"),
                   ServiceKey(safe, ServiceField.Source(Secondary, Receiving)) := Str("No")]
  {
    PutSix(map[], SvcKey(safe), ClearWrites());
  }

  /** The six ids are all different, so clearing leaves six entries. */
  lemma ClearVarsSize(safe: string)
    ensures |ClearVars(safe)| == 6
  {
    var ws := ClearWrites();
    PutSix(map[], SvcKey(safe), ws);
    ClearKeysDistinct(safe);
    var ks := SvcKeys(safe, ws);
    assert ks[0] != ks[1] && ks[0] != ks[2] && ks[0] != ks[3] && ks[0] != ks[4] && ks[0] != ks[5];
    assert ks[1] != ks[2] && ks[1] != ks[3] && ks[1] != ks[4] && ks[1] != ks[5];
    assert ks[2] != ks[3] && ks[2] != ks[4] && ks[2] != ks[5];
    assert ks[3] != ks[4] && ks[3] != ks[5] && ks[4] != ks[5];
    DistinctSix(ks[0], ks[1], ks[2], ks[3], ks[4], ks[5], ws[0].1, ws[1].1, ws[2].1, ws[3].1, ws[4].1, ws[5].1);
  }

  lemma DistinctSix(k0: string, k1: string, k2: string, k3: string, k4: string, k5: string,
                    v0: Value, v1: Value, v2: Value, v3: Value, v4: Value, v5: Value)
    requires k0 != k1 && k0 != k2 && k0 != k3 && k0 != k4 && k0 != k5
    requires k1 != k2 && k1 != k3 && k1 != k4 && k1 != k5
    requires k2 != k3 && k2 != k4 && k2 != k5
    requires k3 != k4 && k3 != k5 && k4 != k5
    ensures |map[][k0 := v0][k1 := v1][k2 := v2][k3 := v3][k4 := v4][k5 := v5]| == 6
  {
  }

  /** The six ids clearServiceVariables writes are different from each other. */
  lemma ClearKeysDistinct(safe: string)
    ensures var ks := SvcKeys(safe, ClearWrites());
            forall i, j :: 0 <= i < j < |ks| ==> ks[i] != ks[j]
  {
    var ws := ClearWrites();
    forall i, j | 0 <= i < j < |ws|
      ensures ServiceKey(safe, ws[i].0) != ServiceKey(safe, ws[j].0)
    {
      ServiceKeyInjective(safe, ws[i].0, ws[j].0);
    }
  }

  /** The ids of a list of writes, in order. */
  function SvcKeys(safe: string, ws: seq<SvcWrite>): (ks: seq<string>)
    ensures |ks| == |ws| && forall i :: 0 <= i < |ws| ==> ks[i] == ServiceKey(safe, ws[i].0)
  {
    seq(|ws|, i requires 0 <= i < |ws| => ServiceKey(safe, ws[i].0))
  }
}
