/** agent_tools.py: crash-atomic shard writes, and the resume pass that finds what is still missing. */
module Shards {
  import opened Models

  /** A shard file of a run, or a temporary file of `mkstemp`; the suffixes keep the two apart. */
  datatype Name = Shard(run: string, key: string) | Temp(id: nat)

  type Files = map<Name, string>

  function Concat(chunks: seq<string>): string {
    if chunks == [] then "" else Concat(chunks[..|chunks| - 1]) + chunks[|chunks| - 1]
  }

  // ------------------------------------------------------------------ writers as steps

  /** `Gone`: the write raised, or its process died. */
  datatype Phase = Ready | Writing(temp: nat, next: nat) | Landed | Gone

  /** One call of `write_shard`; `chunks` is what `json.dump` writes, piece by piece. */
  datatype Writer = Writer(run: string, key: string, chunks: seq<string>, phase: Phase)

  datatype World = World(files: Files, writers: seq<Writer>)

  /** `Raise` removes the temporary file, `Crash` leaves everything as it is. */
  datatype Action = Create(i: nat, temp: nat) | Append(i: nat) | Rename(i: nat) | Raise(i: nat) | Crash(i: nat)

  predicate Enabled(w: World, a: Action) {
    && a.i < |w.writers|
    && var p := w.writers[a.i].phase;
       match a
       case Create(i, temp) => p.Ready? && Temp(temp) !in w.files
       case Append(i) => p.Writing? && p.next < |w.writers[i].chunks| && Temp(p.temp) in w.files
       case Rename(i) => p.Writing? && p.next == |w.writers[i].chunks| && Temp(p.temp) in w.files
       case Raise(i) => p.Writing?
       case Crash(i) => p.Ready? || p.Writing?
  }

  function Move(w: World, i: nat, p: Phase): seq<Writer>
    requires i < |w.writers|
  {
    w.writers[i := w.writers[i].(phase := p)]
  }

  function Target(x: Writer): Name { Shard(x.run, x.key) }

  function Apply(w: World, a: Action): World
    requires Enabled(w, a)
  {
    var x := w.writers[a.i];
    match a
    case Create(i, temp) => World(w.files[Temp(temp) := ""], Move(w, i, Writing(temp, 0)))
    case Append(i) =>
      var t := Temp(x.phase.temp);
      World(w.files[t := w.files[t] + x.chunks[x.phase.next]], Move(w, i, Writing(x.phase.temp, x.phase.next + 1)))
    case Rename(i) =>
      var t := Temp(x.phase.temp);
      World((w.files - {t})[Target(x) := w.files[t]], Move(w, i, Landed))
    case Raise(i) => World(w.files - {Temp(x.phase.temp)}, Move(w, i, Gone))
    case Crash(i) => World(w.files, Move(w, i, Gone))
  }

  /** A live temporary file holds exactly what its writer has written, and belongs to no other writer. */
  ghost predicate Owned(w: World) {
    && (forall i :: 0 <= i < |w.writers| && w.writers[i].phase.Writing? ==>
          var p := w.writers[i].phase;
          p.next <= |w.writers[i].chunks| && Temp(p.temp) in w.files
          && w.files[Temp(p.temp)] == Concat(w.writers[i].chunks[..p.next]))
    && forall i, j :: 0 <= i < j < |w.writers| && w.writers[i].phase.Writing? && w.writers[j].phase.Writing?
                      ==> w.writers[i].phase.temp != w.writers[j].phase.temp
  }

  /** The whole text of a write that has landed on this name. */
  ghost predicate LandedText(w: World, name: Name, text: string) {
    exists i :: 0 <= i < |w.writers| && w.writers[i].phase.Landed?
                && name == Shard(w.writers[i].run, w.writers[i].key) && text == Concat(w.writers[i].chunks)
  }

  ghost predicate Whole(w: World, before: Files) {
    && (forall name | name in w.files && name.Shard? ::
          (name in before && w.files[name] == before[name]) || LandedText(w, name, w.files[name]))
    && (forall name | name in before && name.Shard? :: name in w.files)
    && forall i :: 0 <= i < |w.writers| && w.writers[i].phase.Landed? ==>
                     Shard(w.writers[i].run, w.writers[i].key) in w.files
  }

  lemma ConcatNext(chunks: seq<string>, n: nat)
    requires n < |chunks|
    ensures Concat(chunks[..n + 1]) == Concat(chunks[..n]) + chunks[n]
  {
    assert chunks[..n + 1][..n] == chunks[..n];
  }

  lemma StepOwned(w: World, a: Action)
    requires Owned(w) && Enabled(w, a)
    ensures Owned(Apply(w, a))
  {
    hide Concat;
    var x := w.writers[a.i];
    match a
    case Create(i, temp) => EmptyConcat(x.chunks);
    case Append(i) => ConcatNext(x.chunks, x.phase.next);
    case Rename(i) =>
    case Raise(i) =>
    case Crash(i) =>
  }

  lemma EmptyConcat(chunks: seq<string>)
    ensures Concat(chunks[..0]) == ""
  {
  }

  lemma StepWhole(w: World, a: Action, before: Files)
    requires Owned(w) && Whole(w, before) && Enabled(w, a)
    ensures Whole(Apply(w, a), before)
  {
    hide Concat;
    var x, w' := w.writers[a.i], Apply(w, a);
    if a.Rename? {
      assert x.chunks[..|x.chunks|] == x.chunks;
      assert w'.writers[a.i].phase.Landed? && w'.files[Target(x)] == Concat(x.chunks);
      assert LandedText(w', Target(x), w'.files[Target(x)]);
    }
    forall name | name in w'.files && name.Shard? && !(a.Rename? && name == Target(x))
      ensures (name in before && w'.files[name] == before[name]) || LandedText(w', name, w'.files[name])
    {
      assert name in w.files && w.files[name] == w'.files[name];
      if LandedText(w, name, w.files[name]) {
        var i :| 0 <= i < |w.writers| && w.writers[i].phase.Landed?
                 && name == Shard(w.writers[i].run, w.writers[i].key)
                 && w.files[name] == Concat(w.writers[i].chunks);
        assert w'.writers[i] == w.writers[i];
        assert LandedText(w', name, w'.files[name]);
      }
    }
  }

  ghost predicate Legal(w: World, acts: seq<Action>)
    decreases |acts|
  {
    acts == [] || (Enabled(w, acts[0]) && Legal(Apply(w, acts[0]), acts[1..]))
  }

  ghost function After(w: World, acts: seq<Action>): World
    requires Legal(w, acts)
    decreases |acts|
  {
    if acts == [] then w else After(Apply(w, acts[0]), acts[1..])
  }

  lemma {:induction false} AfterKeeps(w: World, acts: seq<Action>, before: Files)
    requires Owned(w) && Whole(w, before) && Legal(w, acts)
    ensures Owned(After(w, acts)) && Whole(After(w, acts), before)
    decreases |acts|
  {
    hide Owned, Whole, Apply, Enabled;
    if acts != [] {
      StepOwned(w, acts[0]);
      StepWhole(w, acts[0], before);
      AfterKeeps(Apply(w, acts[0]), acts[1..], before);
    }
  }

  /** After any interleaving of any writers, with crashes and failed writes anywhere: a shard is absent only if it
      was absent before and no write of it has landed; otherwise it holds what it held before, or the whole text
      of one write of it. */
  lemma ShardsAreWhole(files: Files, writers: seq<Writer>, acts: seq<Action>, name: Name)
    requires (forall i :: 0 <= i < |writers| ==> writers[i].phase.Ready?) && Legal(World(files, writers), acts)
    requires name.Shard?
    ensures var w := After(World(files, writers), acts);
            && (name !in w.files ==>
                  name !in files && forall i :: 0 <= i < |w.writers|
                                                && name == Shard(w.writers[i].run, w.writers[i].key)
                                                ==> !w.writers[i].phase.Landed?)
            && (name in w.files ==>
                  (name in files && w.files[name] == files[name]) || LandedText(w, name, w.files[name]))
  {
    hide Apply, Enabled, Concat;
    AfterKeeps(World(files, writers), acts, files);
  }

  // ------------------------------------------------------------------ reading back

  /** What reading and parsing a file gives: a JSON value, a parse or read error, or bytes that are not UTF-8,
      which neither loop catches. */
  datatype Reading = Parsed(data: nat) | Unusable | NotText

  /** A shard counts as done when it exists and parses. */
  predicate Done(files: Files, read: string -> Reading, run: string, key: string) {
    Shard(run, key) in files && read(files[Shard(run, key)]).Parsed?
  }

  predicate Broken(files: Files, read: string -> Reading, run: string, key: string) {
    Shard(run, key) in files && read(files[Shard(run, key)]).NotText?
  }

  function Missing(files: Files, read: string -> Reading, run: string, keys: seq<string>): seq<string> {
    if keys == [] then []
    else
      var key := keys[|keys| - 1];
      Missing(files, read, run, keys[..|keys| - 1]) + if Done(files, read, run, key) then [] else [key]
  }

  function Yielded(files: Files, read: string -> Reading, run: string, keys: seq<string>): seq<(string, nat)> {
    if keys == [] then []
    else
      var key := keys[|keys| - 1];
      Yielded(files, read, run, keys[..|keys| - 1])
      + if Done(files, read, run, key) then [(key, read(files[Shard(run, key)]).data)] else []
  }

  function KeysOf(pairs: seq<(string, nat)>): seq<string> {
    if pairs == [] then [] else KeysOf(pairs[..|pairs| - 1]) + [pairs[|pairs| - 1].0]
  }

  lemma {:induction false} MissingAre(files: Files, read: string -> Reading, run: string, keys: seq<string>)
    ensures forall key :: key in Missing(files, read, run, keys) <==> key in keys && !Done(files, read, run, key)
  {
    hide Done;
    if keys != [] {
      MissingAre(files, read, run, keys[..|keys| - 1]);
      assert keys == keys[..|keys| - 1] + [keys[|keys| - 1]];
    }
  }

  lemma YieldedKeys(files: Files, read: string -> Reading, run: string, keys: seq<string>)
    requires keys != []
    ensures var (n, key) := (|keys| - 1, keys[|keys| - 1]);
            KeysOf(Yielded(files, read, run, keys))
            == KeysOf(Yielded(files, read, run, keys[..n])) + if Done(files, read, run, key) then [key] else []
  {
    var key, y := keys[|keys| - 1], Yielded(files, read, run, keys[..|keys| - 1]);
    if Done(files, read, run, key) {
      var pair := (key, read(files[Shard(run, key)]).data);
      assert (y + [pair])[..|y|] == y;
      assert KeysOf(y + [pair]) == KeysOf(y) + [key];
      assert Yielded(files, read, run, keys) == y + [pair];
    } else {
      assert Yielded(files, read, run, keys) == y;
    }
  }

  lemma {:induction false} YieldedAre(files: Files, read: string -> Reading, run: string, keys: seq<string>)
    ensures forall key :: key in KeysOf(Yielded(files, read, run, keys)) <==> key in keys && Done(files, read, run, key)
  {
    if keys != [] {
      hide Done, Yielded, KeysOf;
      YieldedKeys(files, read, run, keys);
      YieldedAre(files, read, run, keys[..|keys| - 1]);
      assert keys == keys[..|keys| - 1] + [keys[|keys| - 1]];
    }
  }

  /** The keys are shared out between `a` and `b`. */
  ghost predicate Shared(keys: seq<string>, a: seq<string>, b: seq<string>) {
    multiset(keys) == multiset(a) + multiset(b)
  }

  lemma {:induction false} Counted(files: Files, read: string -> Reading, run: string, keys: seq<string>)
    ensures Shared(keys, Missing(files, read, run, keys), KeysOf(Yielded(files, read, run, keys)))
  {
    if keys != [] {
      hide Done, Yielded, KeysOf, Missing, Shared;
      var n, key := |keys| - 1, keys[|keys| - 1];
      YieldedKeys(files, read, run, keys);
      MissingNext(files, read, run, keys);
      Counted(files, read, run, keys[..n]);
      Tally(keys, Missing(files, read, run, keys[..n]), KeysOf(Yielded(files, read, run, keys[..n])),
            Done(files, read, run, key), Missing(files, read, run, keys), KeysOf(Yielded(files, read, run, keys)));
    }
  }

  lemma MissingNext(files: Files, read: string -> Reading, run: string, keys: seq<string>)
    requires keys != []
    ensures var (n, key) := (|keys| - 1, keys[|keys| - 1]);
            Missing(files, read, run, keys)
            == Missing(files, read, run, keys[..n]) + if Done(files, read, run, key) then [] else [key]
  {
    hide Done;
  }

  lemma Tally(keys: seq<string>, a: seq<string>, b: seq<string>, done: bool, a': seq<string>, b': seq<string>)
    requires keys != [] && Shared(keys[..|keys| - 1], a, b)
    requires var key := keys[|keys| - 1];
             a' == a + (if done then [] else [key]) && b' == b + (if done then [key] else [])
    ensures Shared(keys, a', b')
  {
    assert keys == keys[..|keys| - 1] + [keys[|keys| - 1]];
    assert a + [] == a && b + [] == b;
  }

  /** In one state of the file system the keys yielded and the keys pending are, together and with multiplicity,
      the keys asked for, and no key is both. */
  lemma {:induction false} PendingIsComplement(files: Files, read: string -> Reading, run: string, keys: seq<string>)
    ensures Shared(keys, Missing(files, read, run, keys), KeysOf(Yielded(files, read, run, keys)))
    ensures forall key :: !(key in Missing(files, read, run, keys) && key in KeysOf(Yielded(files, read, run, keys)))
  {
    hide Done, Missing, Yielded, KeysOf;
    MissingAre(files, read, run, keys);
    YieldedAre(files, read, run, keys);
    Counted(files, read, run, keys);
  }

  datatype WriteResult = Written | Raised | Crashed

  class FileSystem {
    var files: Files
    const read: string -> Reading

    constructor (files: Files, read: string -> Reading)
      ensures this.files == files && this.read == read
    {
      this.files, this.read := files, read;
    }

    /** `write_shard`. `fail` is the step at which the write raises or dies, if it does: before a chunk, or, at
        `|chunks|`, before the rename. */
    method WriteShard(run: string, key: string, chunks: seq<string>, fail: Option<nat>, dies: bool, temp: nat)
      returns (r: WriteResult)
      requires Temp(temp) !in files
      modifies this
      ensures r.Written? <==> fail.None? || fail.value > |chunks|
      ensures r.Written? ==> files == old(files)[Shard(run, key) := Concat(chunks)]
      ensures r.Raised? ==> files == old(files)
      ensures r.Crashed? ==> fail.Some? && fail.value <= |chunks|
                             && files == old(files)[Temp(temp) := Concat(chunks[..fail.value])]
    {
      var t := Temp(temp);
      files := files[t := ""];
      for i := 0 to |chunks|
        invariant files == old(files)[t := Concat(chunks[..i])]
        invariant fail.None? || fail.value >= i
      {
        if fail == Some(i) {
          if dies { return Crashed; }
          files := files - {t};
          return Raised;
        }
        ConcatNext(chunks, i);
        files := files[t := files[t] + chunks[i]];
      }
      assert chunks[..|chunks|] == chunks;
      if fail == Some(|chunks|) {
        if dies { return Crashed; }
        files := files - {t};
        return Raised;
      }
      files := (files - {t})[Shard(run, key) := files[t]];
      return Written;
    }

    method PendingItems(run: string, keys: seq<string>) returns (raised: bool, pending: seq<string>)
      ensures raised <==> exists k :: 0 <= k < |keys| && Broken(files, read, run, keys[k])
      ensures !raised ==> pending == Missing(files, read, run, keys)
    {
      pending := [];
      for i := 0 to |keys|
        invariant pending == Missing(files, read, run, keys[..i])
        invariant forall k :: 0 <= k < i ==> !Broken(files, read, run, keys[k])
      {
        assert keys[..i + 1][..i] == keys[..i];
        var name := Shard(run, keys[i]);
        if name !in files {
          pending := pending + [keys[i]];
        } else {
          match read(files[name])
          case NotText => assert Broken(files, read, run, keys[i]); return true, pending;
          case Unusable => pending := pending + [keys[i]];
          case Parsed(_) =>
        }
      }
      assert keys[..|keys|] == keys;
      raised := false;
    }

    method IterShards(run: string, keys: seq<string>) returns (raised: bool, shards: seq<(string, nat)>)
      ensures raised <==> exists k :: 0 <= k < |keys| && Broken(files, read, run, keys[k])
      ensures !raised ==> shards == Yielded(files, read, run, keys)
    {
      shards := [];
      for i := 0 to |keys|
        invariant shards == Yielded(files, read, run, keys[..i])
        invariant forall k :: 0 <= k < i ==> !Broken(files, read, run, keys[k])
      {
        assert keys[..i + 1][..i] == keys[..i];
        var name := Shard(run, keys[i]);
        if name in files {
          match read(files[name])
          case NotText => assert Broken(files, read, run, keys[i]); return true, shards;
          case Unusable =>
          case Parsed(data) => shards := shards + [(keys[i], data)];
        }
      }
      assert keys[..|keys|] == keys;
      raised := false;
    }

    /** The resume pass: writing every pending key once, without a failure, leaves none pending, whatever was
        there before; shards that were done are not touched. */
    method Resume(run: string, keys: seq<string>, output: string -> seq<string>, temp: nat) returns (raised: bool)
      requires Temp(temp) !in files
      requires forall key :: key in keys ==> read(Concat(output(key))).Parsed?
      modifies this
      ensures raised <==> exists k :: 0 <= k < |keys| && Broken(old(files), read, run, keys[k])
      ensures !raised ==> Missing(files, read, run, keys) == []
      ensures Kept(old(files), files, read, run)
    {
      hide Concat, Missing, Broken;
      ghost var before := files;
      var pending;
      raised, pending := PendingItems(run, keys);
      if raised { return; }
      MissingAre(files, read, run, keys);
      for i := 0 to |pending|
        invariant Temp(temp) !in files
        invariant forall k :: 0 <= k < i ==> Done(files, read, run, pending[k])
        invariant Kept(before, files, read, run)
      {
        assert pending[i] in pending;
        var r := WriteShard(run, pending[i], output(pending[i]), None, false, temp);
      }
      AllDone(before, files, read, run, keys, pending);
    }
  }

  /** Every shard that was done still has its content. */
  ghost predicate Kept(before: Files, after: Files, read: string -> Reading, run: string) {
    forall key :: Done(before, read, run, key) ==>
                    Shard(run, key) in after && after[Shard(run, key)] == before[Shard(run, key)]
  }

  lemma AllDone(before: Files, after: Files, read: string -> Reading, run: string, keys: seq<string>,
                pending: seq<string>)
    requires Kept(before, after, read, run)
    requires forall key :: key in keys && !Done(before, read, run, key) ==> key in pending
    requires forall k :: 0 <= k < |pending| ==> Done(after, read, run, pending[k])
    ensures Missing(after, read, run, keys) == []
  {
    forall key | key in keys ensures Done(after, read, run, key) {
      if !Done(before, read, run, key) { assert key in pending; }
    }
    NoneMissing(after, read, run, keys);
  }

  lemma {:induction false} NoneMissing(files: Files, read: string -> Reading, run: string, keys: seq<string>)
    requires forall key :: key in keys ==> Done(files, read, run, key)
    ensures Missing(files, read, run, keys) == []
  {
    hide Done;
    if keys != [] { NoneMissing(files, read, run, keys[..|keys| - 1]); }
  }
}
