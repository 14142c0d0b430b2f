/** The preview server and the platform streams, kept in two maps that mirror each other. */
module StreamingLifecycle {
  import opened Sequences
  import opened Wrappers

  /** `ended` lists the streamers that were told to stop, in order. */
  datatype Streaming = Streaming(appRunning: bool, streams: map<int, string>, names: map<int, string>, ended: seq<int>)

  const NOTHING_STREAMS := Streaming(false, map[], map[], [])

  /** The two maps have the same keys, all of them valid stream ids. */
  ghost predicate Mirrored(s: Streaming) {
    s.streams.Keys == s.names.Keys && forall id :: id in s.names ==> id > 0
  }

  ghost predicate Silent(s: Streaming) {
    !s.appRunning && s.streams == map[] && s.names == map[]
  }

  predicate CanStream(s: Streaming, id: int, factoryOk: bool, starts: bool) {
    id > 0 && id !in s.streams && factoryOk && starts
  }

  function StreamStarted(s: Streaming, id: int, url: string, name: string): Streaming {
    s.(streams := s.streams[id := url], names := s.names[id := name])
  }

  function StreamStopped(s: Streaming, id: int): Streaming {
    if id in s.streams then s.(streams := s.streams - {id}, names := s.names - {id}, ended := s.ended + [id]) else s
  }

  /** The order a hash map may be walked in: its keys, each once. */
  ghost predicate Enumerates(order: seq<int>, ids: set<int>) {
    Elements(order) == ids && NoDuplicates(order)
  }

  class StreamingService {
    var appRunning: bool
    var streams: map<int, string>
    var names: map<int, string>
    ghost var ended: seq<int>

    ghost function Contents(): Streaming
      reads this
    {
      Streaming(appRunning, streams, names, ended)
    }

    constructor ()
      ensures Contents() == NOTHING_STREAMS
    {
      appRunning, streams, names, ended := false, map[], map[], [];
    }

    method StartAppStream(starts: bool) returns (ok: bool)
      modifies this`appRunning
      ensures ok == (old(appRunning) || starts) && appRunning == ok
    {
      if appRunning {
        return true;
      }
      appRunning := starts;
      return starts;
    }

    method StopAppStream() returns (ok: bool)
      modifies this`appRunning
      ensures ok == old(appRunning) && !appRunning
    {
      if !appRunning {
        return false;
      }
      appRunning := false;
      return true;
    }

    method StartPlatformStream(id: int, url: string, name: string, factoryOk: bool, starts: bool) returns (ok: bool)
      requires Mirrored(Contents())
      modifies this
      ensures Mirrored(Contents())
      ensures ok <==> CanStream(old(Contents()), id, factoryOk, starts)
      ensures Contents() == if ok then StreamStarted(old(Contents()), id, url, name) else old(Contents())
      ensures ok <==> id > 0 && id !in old(streams) && factoryOk && starts
      ensures ok ==> streams == old(streams)[id := url] && names == old(names)[id := name]
      ensures !ok ==> streams == old(streams) && names == old(names)
    {
      if id <= 0 {
        return false;
      }
      if id in streams {
        return false;
      }
      if !factoryOk {
        return false;
      }
      if !starts {
        return false;
      }
      names := names[id := name];
      streams := streams[id := url];
      return true;
    }

    method StopPlatformStream(id: int) returns (ok: bool)
      requires Mirrored(Contents())
      modifies this
      ensures Mirrored(Contents())
      ensures ok <==> id in old(streams)
      ensures streams == old(streams) - {id} && names == old(names) - {id}
      ensures ended == if ok then old(ended) + [id] else old(ended)
      ensures Contents() == StreamStopped(old(Contents()), id)
    {
      if id !in streams {
        return false;
      }
      streams := streams - {id};
      names := names - {id};
      ended := ended + [id];
      return true;
    }

    /** The active streams, in the order in which the hash map happens to be walked. */
    method ListActivePlatformStreams(order: seq<int>) returns (out: seq<(int, string)>)
      requires Enumerates(order, names.Keys)
      ensures |out| == |order|
      ensures forall i :: 0 <= i < |out| ==> out[i] == (order[i], names[order[i]])
    {
      out := [];
      for i := 0 to |order|
        invariant |out| == i
        invariant forall k :: 0 <= k < i ==> out[k] == (order[k], names[order[k]])
      {
        out := out + [(order[i], names[order[i]])];
      }
    }
  }

  /** The service after stopping these streams one after the other. */
  function StoppedInOrder(s: Streaming, order: seq<int>): Streaming {
    if order == [] then s
    else StreamStopped(StoppedInOrder(s, order[..|order| - 1]), order[|order| - 1])
  }

  lemma {:induction false} StoppingKeepsMirrored(s: Streaming, order: seq<int>)
    requires Mirrored(s)
    ensures Mirrored(StoppedInOrder(s, order))
  {
    if order == [] {
    } else {
      StoppingKeepsMirrored(s, order[..|order| - 1]);
    }
  }

  lemma WithoutBoth<K, V>(m: map<K, V>, a: set<K>, b: set<K>)
    ensures m - a - b == m - (a + b)
  {
  }

  /** The service without these streams, which were ended in this order. */
  function Without(s: Streaming, gone: set<int>, order: seq<int>): Streaming {
    s.(streams := s.streams - gone, names := s.names - gone, ended := s.ended + order)
  }

  lemma OneMoreIsGone(s: Streaming, gone: set<int>, order: seq<int>, id: int)
    requires id in s.streams && id !in gone
    ensures StreamStopped(Without(s, gone, order), id) == Without(s, gone + {id}, order + [id])
  {
    WithoutBoth(s.streams, gone, {id});
    WithoutBoth(s.names, gone, {id});
    assert s.ended + order + [id] == s.ended + (order + [id]);
  }

  lemma {:induction false} EachIsStoppedOnce(s: Streaming, order: seq<int>)
    requires NoDuplicates(order) && Elements(order) <= s.streams.Keys
    ensures StoppedInOrder(s, order) == Without(s, Elements(order), order)
  {
    if order == [] {
      assert s.streams - {} == s.streams && s.names - {} == s.names;
    } else {
      var m := |order| - 1;
      InitAndLast(order);
      EachIsStoppedOnce(s, order[..m]);
      OneMoreIsGone(s, Elements(order[..m]), order[..m], order[m]);
    }
  }

  /** Stopping every stream, in whatever order the map is walked, leaves none, and ends each exactly once. */
  lemma AllStreamsEnd(s: Streaming, order: seq<int>)
    requires Mirrored(s) && Enumerates(order, s.names.Keys)
    ensures StoppedInOrder(s, order) == s.(streams := map[], names := map[], ended := s.ended + order)
  {
    EachIsStoppedOnce(s, order);
    assert s.streams - s.streams.Keys == map[] && s.names - s.names.Keys == map[];
  }

  /** Where the teardown of all streaming throws: nowhere, at the preview, or at one of the listed streams. */
  datatype StreamFailure = NoStreamFails | PreviewFails | StreamFails(at: nat)

  /** What the teardown leaves: a stream whose stop throws is already off the books, those behind it are not. */
  function StreamsLeft(s: Streaming, order: seq<int>, failure: StreamFailure): Streaming {
    match failure
    case PreviewFails => s
    case StreamFails(at) =>
      StoppedInOrder(s.(appRunning := false), if at < |order| then order[..at + 1] else order)
    case NoStreamFails => StoppedInOrder(s.(appRunning := false), order)
  }

  /**
    The teardown of all streaming: the preview, then every listed stream. It throws where a stop
    does, and then leaves the rest alone.
  */
  method StopStreaming(service: StreamingService, order: seq<int>, failure: StreamFailure) returns (threw: bool)
    requires Mirrored(service.Contents()) && Enumerates(order, service.names.Keys)
    modifies service
    ensures Mirrored(service.Contents())
    ensures service.Contents() == StreamsLeft(old(service.Contents()), order, failure)
    ensures !threw ==> service.Contents() == Streaming(false, map[], map[], old(service.ended) + order)
    ensures threw <==> failure.PreviewFails? || (failure.StreamFails? && failure.at < |order|)
  {
    if failure.PreviewFails? {
      return true;
    }
    var app := service.StopAppStream();
    var active := service.ListActivePlatformStreams(order);
    ghost var before := service.Contents();
    assert before == old(service.Contents()).(appRunning := false);
    for i := 0 to |active|
      invariant Mirrored(service.Contents())
      invariant service.Contents() == StoppedInOrder(before, order[..i])
      invariant failure.StreamFails? ==> i <= failure.at
    {
      StopsOneMore(before, order, i);
      var ok := service.StopPlatformStream(active[i].0);
      if failure == StreamFails(i) {
        return true;
      }
    }
    assert order[..|order|] == order;
    AllStreamsEnd(before, order);
    return false;
  }

  lemma StopsOneMore(s: Streaming, order: seq<int>, i: nat)
    requires i < |order|
    ensures StoppedInOrder(s, order[..i + 1]) == StreamStopped(StoppedInOrder(s, order[..i]), order[i])
  {
    assert order[..i + 1][..i] == order[..i];
  }
}
