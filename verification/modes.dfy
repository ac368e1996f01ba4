/**
 * The per-mode input buffer of src/Modes/Mode.ts.
 *
 * A mode pushes every key onto its `inputs` buffer and hands the whole buffer
 * to its mapper. When the mapper answers with a map, the map's command runs
 * once with the map's arguments and the buffer is cleared; otherwise the
 * buffer keeps every key. The mapper and the commands live in files that are
 * not part of this model, so the mapper is a pure function given to the mode
 * and each command run is written to a ghost log.
 */
module Modes {
  import opened Options

  type Key = string

  /** Arguments handed to a command (the source passes a plain object). */
  type Args = map<string, int>

  /** What the mapper answers for a matched key sequence: a command and its arguments. */
  datatype CommandMap = CommandMap(command: string, args: Args)

  /** The mapper's `match`: `Some(map)` when the key sequence names a command. */
  type Mapper = seq<Key> -> Option<CommandMap>

  /**
   * One run of `map.command(map.args)`, together with the buffer the mode held
   * at the moment of the call.
   */
  datatype Invocation = Invocation(command: string, args: Args, pending: seq<Key>)

  /** The buffer and the commands run after one or more `input` calls. */
  datatype InputEffect = InputEffect(inputs: seq<Key>, invoked: seq<Invocation>)

  /** The keys the logged commands used up, in order. */
  function Consumed(log: seq<Invocation>): seq<Key>
  {
    if log == [] then [] else log[0].pending + Consumed(log[1..])
  }

  /** No non-empty prefix of `b` is a sequence the mapper knows. */
  ghost predicate Unmatched(mapper: Mapper, b: seq<Key>)
  {
    forall i :: 0 < i <= |b| ==> mapper(b[..i]).None?
  }

  /**
   * `inv` is a command the mapper chose for its key sequence, and it was chosen
   * at the first key where the sequence matched.
   */
  ghost predicate Fired(mapper: Mapper, inv: Invocation)
  {
    && |inv.pending| > 0
    && mapper(inv.pending) == Some(CommandMap(inv.command, inv.args))
    && Unmatched(mapper, inv.pending[..|inv.pending| - 1])
  }

  /** The effect of one `input(key)` call on a mode whose buffer is `inputs`. */
  function Feed(mapper: Mapper, inputs: seq<Key>, key: Key): (r: InputEffect)
    ensures |r.invoked| <= 1
    ensures Consumed(r.invoked) + r.inputs == inputs + [key]
    ensures r.invoked == [] <==> mapper(inputs + [key]).None?
    ensures r.invoked != [] ==> r.inputs == []
    ensures forall inv :: inv in r.invoked ==> mapper(inv.pending) == Some(CommandMap(inv.command, inv.args))
  {
    var buffered := inputs + [key];
    match mapper(buffered)
    case Some(m) =>
      assert Consumed([Invocation(m.command, m.args, buffered)]) == buffered + [];
      InputEffect([], [Invocation(m.command, m.args, buffered)])
    case None => InputEffect(buffered, [])
  }

  /** The effect of `input` called once per key of `keys`, in order. */
  function Run(mapper: Mapper, inputs: seq<Key>, keys: seq<Key>): InputEffect
    decreases |keys|
  {
    if keys == [] then InputEffect(inputs, [])
    else
      var first := Feed(mapper, inputs, keys[0]);
      var rest := Run(mapper, first.inputs, keys[1..]);
      InputEffect(rest.inputs, first.invoked + rest.invoked)
  }

  lemma {:induction false} ConsumedAppend(a: seq<Invocation>, b: seq<Invocation>)
    ensures Consumed(a + b) == Consumed(a) + Consumed(b)
  {
    if a == [] {
      assert a + b == b;
    } else {
      assert (a + b)[1..] == a[1..] + b;
      ConsumedAppend(a[1..], b);
      calc {
        Consumed(a + b);
        a[0].pending + Consumed(a[1..] + b);
        a[0].pending + (Consumed(a[1..]) + Consumed(b));
        Consumed(a) + Consumed(b);
      }
    }
  }

  /** Joins the two halves of a run: what the first call keeps and what the rest of the run uses up. */
  lemma SplicePieces<T>(c1: seq<T>, b: seq<T>, c2: seq<T>, r: seq<T>, x: seq<T>, k: T, ks: seq<T>)
    requires c1 + b == x + [k]
    requires c2 + r == b + ks
    ensures (c1 + c2) + r == x + ([k] + ks)
  {
    calc {
      (c1 + c2) + r;
      c1 + (c2 + r);
      c1 + (b + ks);
      (c1 + b) + ks;
      (x + [k]) + ks;
      x + ([k] + ks);
    }
  }

  /** Every key handed to the mode is either used up by a command, in order, or still buffered. */
  lemma {:induction false} RunConservesKeys(mapper: Mapper, inputs: seq<Key>, keys: seq<Key>)
    ensures Consumed(Run(mapper, inputs, keys).invoked) + Run(mapper, inputs, keys).inputs == inputs + keys
    decreases |keys|
  {
    if keys != [] {
      var first := Feed(mapper, inputs, keys[0]);
      var rest := Run(mapper, first.inputs, keys[1..]);
      assert Run(mapper, inputs, keys) == InputEffect(rest.inputs, first.invoked + rest.invoked);
      assert keys == [keys[0]] + keys[1..];
      RunConservesKeys(mapper, first.inputs, keys[1..]);
      ConsumedAppend(first.invoked, rest.invoked);
      SplicePieces(Consumed(first.invoked), first.inputs, Consumed(rest.invoked), rest.inputs,
                   inputs, keys[0], keys[1..]);
    }
  }

  /** Each `input` call runs at most one command. */
  lemma {:induction false} RunAtMostOnePerKey(mapper: Mapper, inputs: seq<Key>, keys: seq<Key>)
    ensures |Run(mapper, inputs, keys).invoked| <= |keys|
    decreases |keys|
  {
    if keys != [] {
      RunAtMostOnePerKey(mapper, Feed(mapper, inputs, keys[0]).inputs, keys[1..]);
    }
  }

  /**
   * One `input` call keeps the buffer free of matched prefixes, and the
   * command it runs, if any, fired at the first key where its sequence matched.
   */
  lemma FeedKeepsUnmatched(mapper: Mapper, inputs: seq<Key>, key: Key)
    requires Unmatched(mapper, inputs)
    ensures Unmatched(mapper, Feed(mapper, inputs, key).inputs)
    ensures forall inv :: inv in Feed(mapper, inputs, key).invoked ==> Fired(mapper, inv)
  {
    var buffered := inputs + [key];
    assert buffered[..|buffered| - 1] == inputs;
    if mapper(buffered).None? {
      forall i | 0 < i <= |buffered|
        ensures mapper(buffered[..i]).None?
      {
        if i < |buffered| {
          assert buffered[..i] == inputs[..i];
        } else {
          assert buffered[..i] == buffered;
        }
      }
    }
  }

  /**
   * Started from a buffer that holds no matched prefix, any run of inputs keeps it
   * so, and every command it runs is the mapper's answer for the keys it used up.
   */
  lemma {:induction false} RunKeepsUnmatched(mapper: Mapper, inputs: seq<Key>, keys: seq<Key>)
    requires Unmatched(mapper, inputs)
    ensures Unmatched(mapper, Run(mapper, inputs, keys).inputs)
    ensures forall inv :: inv in Run(mapper, inputs, keys).invoked ==> Fired(mapper, inv)
    decreases |keys|
  {
    if keys != [] {
      FeedKeepsUnmatched(mapper, inputs, keys[0]);
      RunKeepsUnmatched(mapper, Feed(mapper, inputs, keys[0]).inputs, keys[1..]);
    }
  }

  /**
   * While the mapper answers nothing, nothing runs and the buffer keeps every key:
   * there is no reset on a miss.
   */
  lemma {:induction false} RunAccumulatesMisses(mapper: Mapper, inputs: seq<Key>, keys: seq<Key>)
    requires forall i :: 0 < i <= |keys| ==> mapper(inputs + keys[..i]).None?
    ensures Run(mapper, inputs, keys) == InputEffect(inputs + keys, [])
    decreases |keys|
  {
    if keys != [] {
      assert keys[..1] == [keys[0]];
      var next := inputs + [keys[0]];
      forall i | 0 < i <= |keys[1..]|
        ensures mapper(next + keys[1..][..i]).None?
      {
        assert next + keys[1..][..i] == inputs + keys[..i + 1];
      }
      RunAccumulatesMisses(mapper, next, keys[1..]);
      assert next + keys[1..] == inputs + keys;
    }
  }

  /** A mode: its mapper, its key buffer and the log of commands it has run. */
  class Mode {
    const mapper: Mapper
    var inputs: seq<Key>
    ghost var invoked: seq<Invocation>

    ghost predicate Valid()
      reads this
    {
      && Unmatched(mapper, inputs)
      && forall inv :: inv in invoked ==> Fired(mapper, inv)
    }

    constructor (mapper: Mapper)
      ensures Valid()
      ensures this.mapper == mapper
      ensures inputs == [] && invoked == []
    {
      this.mapper := mapper;
      invoked := [];
      new;
      Reset();
    }

    method Reset()
      modifies this`inputs
      ensures inputs == []
    {
      inputs := [];
    }

    /** Push `key`, ask the mapper, and on a match run the command and clear the buffer. */
    method Input(key: Key)
      requires Valid()
      modifies this`inputs, this`invoked
      ensures Valid()
      ensures inputs == Feed(mapper, old(inputs), key).inputs
      ensures invoked == old(invoked) + Feed(mapper, old(inputs), key).invoked
    {
      FeedKeepsUnmatched(mapper, inputs, key);
      inputs := inputs + [key];
      var found := mapper(inputs);
      if found.Some? {
        // The command runs while the buffer still holds the matched keys.
        invoked := invoked + [Invocation(found.value.command, found.value.args, inputs)];
        Reset();
      }
    }
  }
}
