/** What a finished chat run leaves behind (chat_run_registry.py): its payload without the long event streams. */
module RunPayload {
  import opened Seqs

  /** A list of a payload, with the count noted beside it once it was cut. */
  datatype Stream = Stream(items: seq<string>, count: Option<nat>)

  datatype Payload = Payload(okIsFalse: bool, completion: Option<string>, error: string, streams: map<string, Stream>)

  const RETAINED_KEYS := ["events", "runtime_events", "thinking_events"]
  const TAIL_ITEMS: nat := 100

  /** A long list is cut to its end, and its length noted. */
  function Cut(s: Stream): (r: Stream) {
    if |s.items| > TAIL_ITEMS then Stream(LastN(s.items, TAIL_ITEMS), Some(|s.items|)) else s
  }

  function CutAt(streams: map<string, Stream>, keys: seq<string>): (r: map<string, Stream>) {
    map k | k in streams :: if k in keys then Cut(streams[k]) else streams[k]
  }

  function Compact(p: Payload): (r: Payload) {
    p.(streams := CutAt(p.streams, RETAINED_KEYS))
  }

  lemma CutOneMore(streams: map<string, Stream>, keys: seq<string>, key: string)
    requires key !in keys
    ensures CutAt(streams, keys + [key])
            == if key in streams then CutAt(streams, keys)[key := Cut(streams[key])] else CutAt(streams, keys)
    ensures key in streams ==> CutAt(streams, keys)[key] == streams[key]
    ensures CutAt(streams, keys).Keys == streams.Keys
  {
    hide Cut;
  }

  lemma CutNothing(streams: map<string, Stream>)
    ensures CutAt(streams, []) == streams
  {
  }

  method CompactFinalPayload(p: Payload) returns (r: Payload)
    ensures r == Compact(p)
  {
    hide CutAt;
    r := p;
    CutNothing(p.streams);
    for i := 0 to |RETAINED_KEYS|
      invariant r == p.(streams := CutAt(p.streams, RETAINED_KEYS[..i]))
    {
      var key := RETAINED_KEYS[i];
      assert RETAINED_KEYS[..i + 1] == RETAINED_KEYS[..i] + [key];
      CutOneMore(p.streams, RETAINED_KEYS[..i], key);
      if key in r.streams && |r.streams[key].items| > TAIL_ITEMS {
        var items := r.streams[key].items;
        r := r.(streams := r.streams[key := Stream(items[|items| - TAIL_ITEMS..], Some(|items|))]);
      } else {
        assert key in r.streams ==> r.streams[key := Cut(p.streams[key])] == r.streams;
      }
    }
    assert RETAINED_KEYS[..|RETAINED_KEYS|] == RETAINED_KEYS;
  }

  /** No retained event list is longer than the bound, each is the end of the one given, one that was cut says how
      long it was, and the rest of the payload is as it was. */
  lemma CompactKeepsTails(p: Payload)
    ensures var r := Compact(p);
            && r == p.(streams := r.streams) && r.streams.Keys == p.streams.Keys
            && forall k :: k in p.streams ==>
                 var before, after := p.streams[k], r.streams[k];
                 && (k !in ["events", "runtime_events", "thinking_events"] ==> after == before)
                 && (k in ["events", "runtime_events", "thinking_events"] ==>
                       && |after.items| == (if |before.items| <= 100 then |before.items| else 100)
                       && after.items == before.items[|before.items| - |after.items|..])
                 && (|after.items| < |before.items| ==> after.count == Some(|before.items|))
                 && (|after.items| == |before.items| ==> after == before)
  {
  }

  lemma CutTwice(s: Stream)
    ensures Cut(Cut(s)) == Cut(s)
  {
  }

  /** Compacting a compacted payload changes nothing, the noted lengths included. */
  lemma CompactTwice(p: Payload)
    ensures Compact(Compact(p)) == Compact(p)
  {
    hide Cut;
    forall k | k in p.streams ensures Cut(Cut(p.streams[k])) == Cut(p.streams[k]) {
      CutTwice(p.streams[k]);
    }
  }
}
