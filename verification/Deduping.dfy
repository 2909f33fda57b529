/**
 * The dedup stage and its advisory bloom cache. The server may answer anything, false positives
 * included, and any command may fail.
 */
module Deduping {
  import opened Sequences
  import opened Models
  import opened PipelineMachine
  import opened PipelineMeaning

  datatype Command = Add(id: Uuid) | Query(id: Uuid)

  datatype Reply = Answer(known: bool) | RedisError

  /** The reply to the last of the commands sent so far. */
  type Server = seq<Command> -> Reply

  class BloomCache {
    const redis: Option<Server>
    var sent: seq<Command>

    constructor (redis: Option<Server>)
      ensures this.redis == redis && sent == []
    {
      this.redis := redis;
      sent := [];
    }

    method Execute(server: Server, c: Command) returns (reply: Reply)
      modifies this
      ensures sent == old(sent) + [c] && reply == server(sent)
    {
      sent := sent + [c];
      reply := server(sent);
    }

    /** Records an id; a failure of the server is swallowed. */
    method Insert(id: Uuid)
      modifies this
      ensures sent == old(sent) + if redis.Some? then [Add(id)] else []
    {
      if redis.Some? {
        var _ := Execute(redis.value, Add(id));
      }
    }

    /** Without a server, and when it fails, nothing is known. */
    method Exists(id: Uuid) returns (found: bool)
      modifies this
      ensures sent == old(sent) + if redis.Some? then [Query(id)] else []
      ensures found <==> redis.Some? && redis.value(sent) == Answer(true)
    {
      found := false;
      if redis.Some? {
        var reply := Execute(redis.value, Query(id));
        found := reply == Answer(true);
      }
    }
  }

  function Insertions(cs: seq<Candidate>): seq<Command> {
    seq(|cs|, i requires 0 <= i < |cs| => Add(cs[i].0.id))
  }

  /** The loop of the stage: whatever the server does, every candidate goes through, in order. */
  method RunDedup(bloom: BloomCache?, input: seq<Candidate>) returns (out: seq<Candidate>)
    modifies bloom
    ensures out == input == Outputs(Deduper(), input) && Clean(Deduper(), input)
    ensures bloom != null ==>
      bloom.sent == old(bloom.sent) + if bloom.redis.Some? then Insertions(input) else []
  {
    out := [];
    for i := 0 to |input|
      invariant out == input[..i]
      invariant bloom != null ==>
        bloom.sent == old(bloom.sent) + if bloom.redis.Some? then Insertions(input[..i]) else []
    {
      if bloom != null {
        bloom.Insert(input[i].0.id);
        assert Insertions(input[..i + 1]) == Insertions(input[..i]) + [Add(input[i].0.id)];
      }
      out := out + [input[i]];
    }
    DedupIsTransparent(input);
    assert input[..|input|] == input;
  }
}
