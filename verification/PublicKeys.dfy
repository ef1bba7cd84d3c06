/** Public keys: many resource instances over one key store. An instance remembers, in its `delete`
    flag, that its own create put its key there; only then does its delete remove the key. */
module PublicKeys {
  import opened ResourceStore

  datatype PublicKeyState = PublicKeyState(id: string, path: string, keyMaterial: string, delete: bool)

  /** What becomes of a request: the server acts and says so, answers with an error status and does
      nothing, or acts although its answer is an error status, as when a gateway times out. */
  datatype Delivery = Answered | Refused | Garbled

  datatype Reply = Done | Conflict | Error

  /** The key store: path to key material. */
  class KeyStore {
    var keys: map<string, string>

    method StorageKeyCreate(path: string, material: string, delivery: Delivery) returns (reply: Reply)
      modifies this
      ensures reply == if delivery != Answered then Error else if path in old(keys) then Conflict else Done
      ensures keys == if delivery == Refused || path in old(keys) then old(keys) else old(keys)[path := material]
    {
      reply := if delivery != Answered then Error else if path in keys then Conflict else Done;
      if delivery != Refused && path !in keys {
        keys := keys[path := material];
      }
    }

    method StorageKeyUpdate(path: string, material: string, delivery: Delivery) returns (reply: Reply)
      modifies this
      ensures reply == if delivery == Answered && path in old(keys) then Done else Error
      ensures keys == if delivery == Refused || path !in old(keys) then old(keys) else old(keys)[path := material]
    {
      reply := if delivery == Answered && path in keys then Done else Error;
      if delivery != Refused && path in keys {
        keys := keys[path := material];
      }
    }

    method StorageKeyDelete(path: string, delivery: Delivery) returns (reply: Reply)
      modifies this
      ensures reply == if delivery == Answered && path in old(keys) then Done else Error
      ensures keys == if delivery == Refused then old(keys) else old(keys) - {path}
    {
      reply := if delivery == Answered && path in keys then Done else Error;
      if delivery != Refused {
        keys := keys - {path};
      }
    }
  }

  // ---------------------------------------------------------------- The operations

  /** The store, the instance and whether the operation reported success. */
  datatype Outcome = Outcome(keys: map<string, string>, state: PublicKeyState, ok: bool)

  function AfterRead(keys: map<string, string>, s: PublicKeyState, readable: bool): Outcome {
    if readable && s.id in keys then Outcome(keys, s.(keyMaterial := keys[s.id]), true) else Outcome(keys, s, false)
  }

  function AfterCreate(keys: map<string, string>, s: PublicKeyState, delivery: Delivery, readable: bool): Outcome {
    if s.keyMaterial == "" then
      AfterRead(keys, s.(id := s.path), readable)
    else if delivery == Refused || s.path in keys then
      Outcome(keys, s, false)
    else if delivery == Garbled then
      Outcome(keys[s.path := s.keyMaterial], s, false)
    else
      AfterRead(keys[s.path := s.keyMaterial], s.(delete := true, id := s.path), readable)
  }

  function AfterUpdate(keys: map<string, string>, s: PublicKeyState, changed: bool, delivery: Delivery, readable: bool)
    : Outcome
  {
    if !changed then
      AfterRead(keys, s, readable)
    else if delivery == Refused || s.path !in keys then
      Outcome(keys, s, false)
    else if delivery == Garbled then
      Outcome(keys[s.path := s.keyMaterial], s, false)
    else
      AfterRead(keys[s.path := s.keyMaterial], s, readable)
  }

  function AfterDelete(keys: map<string, string>, s: PublicKeyState, delivery: Delivery): Outcome {
    if !s.delete then
      Outcome(keys, s.(id := ""), true)
    else if delivery == Answered && s.id in keys then
      Outcome(keys - {s.id}, s.(id := ""), true)
    else
      Outcome(if delivery == Refused then keys else keys - {s.id}, s, false)
  }

  method ReadPublicKey(d: ResourceData<PublicKeyState>, store: KeyStore, readable: bool) returns (ok: bool)
    modifies d
    ensures Outcome(store.keys, d.state, ok) == AfterRead(store.keys, old(d.state), readable)
  {
    var path := d.state.id;
    if !readable || path !in store.keys {
      return false;
    }
    d.state := d.state.(keyMaterial := store.keys[path]);
    return true;
  }

  /** Takes the new instance's configured path and key material; the id is set even if the read then fails. */
  method CreatePublicKey(d: ResourceData<PublicKeyState>, store: KeyStore, delivery: Delivery, readable: bool)
    returns (ok: bool)
    modifies d, store
    ensures Outcome(store.keys, d.state, ok) == AfterCreate(old(store.keys), old(d.state), delivery, readable)
  {
    var path, keyMaterial := d.state.path, d.state.keyMaterial;
    if keyMaterial != "" {
      var reply := store.StorageKeyCreate(path, keyMaterial, delivery);
      if reply != Done {
        return false;
      }
      d.state := d.state.(delete := true);
    }
    d.state := d.state.(id := path);
    ok := ReadPublicKey(d, store, readable);
  }

  /** Takes the instance with its new key material; `changed` is `d.HasChange("key_material")`. */
  method UpdatePublicKey(d: ResourceData<PublicKeyState>, store: KeyStore, changed: bool,
                         delivery: Delivery, readable: bool)
    returns (ok: bool)
    modifies d, store
    ensures Outcome(store.keys, d.state, ok) == AfterUpdate(old(store.keys), old(d.state), changed, delivery, readable)
  {
    if changed {
      var reply := store.StorageKeyUpdate(d.state.path, d.state.keyMaterial, delivery);
      if reply != Done {
        return false;
      }
    }
    ok := ReadPublicKey(d, store, readable);
  }

  method DeletePublicKey(d: ResourceData<PublicKeyState>, store: KeyStore, delivery: Delivery) returns (ok: bool)
    modifies d, store
    ensures Outcome(store.keys, d.state, ok) == AfterDelete(old(store.keys), old(d.state), delivery)
  {
    var path := d.state.id;
    if d.state.delete {
      var reply := store.StorageKeyDelete(path, delivery);
      if reply != Done {
        return false;
      }
    }
    d.state := d.state.(id := "");
    return true;
  }

  // ---------------------------------------------------------------- Runs

  datatype Step =
    | Create(n: nat, path: string, keyMaterial: string, delivery: Delivery, readable: bool)
    | Refresh(n: nat, readable: bool)
    | Update(n: nat, keyMaterial: string, delivery: Delivery, readable: bool)
    | Delete(n: nat, delivery: Delivery)

  /** The store, the instances that Terraform keeps, and, for the keys that appeared during the run,
      the instance whose step made them appear. */
  datatype World = World(keys: map<string, string>, instances: map<nat, PublicKeyState>, putBy: map<string, nat>)

  function PutBy(putBy: map<string, nat>, before: map<string, string>, after: map<string, string>, n: nat)
    : map<string, nat>
  {
    map k | k in after && (k !in before || k in putBy) :: if k in before then putBy[k] else n
  }

  /** Terraform keeps an instance exactly as long as its id is set. */
  function Save(w: World, n: nat, o: Outcome): World {
    World(o.keys, if o.state.id == "" then w.instances - {n} else w.instances[n := o.state],
          PutBy(w.putBy, w.keys, o.keys, n))
  }

  function After(w: World, step: Step): World {
    match step
    case Create(n, path, material, delivery, readable) =>
      if n in w.instances then w
      else Save(w, n, AfterCreate(w.keys, PublicKeyState("", path, material, false), delivery, readable))
    case Refresh(n, readable) =>
      // A key that is gone takes its instance with it.
      if n !in w.instances then w
      else if readable && w.instances[n].id !in w.keys then w.(instances := w.instances - {n})
      else Save(w, n, AfterRead(w.keys, w.instances[n], readable))
    case Update(n, material, delivery, readable) =>
      if n !in w.instances then w
      else Save(w, n, AfterUpdate(w.keys, w.instances[n].(keyMaterial := material),
                                  material != w.instances[n].keyMaterial, delivery, readable))
    case Delete(n, delivery) =>
      if n !in w.instances then w else Save(w, n, AfterDelete(w.keys, w.instances[n], delivery))
  }

  function Run(w: World, steps: seq<Step>): World {
    if steps == [] then w else After(Run(w, steps[..|steps| - 1]), steps[|steps| - 1])
  }

  ghost predicate Flagged(w: World, n: nat) {
    n in w.instances && w.instances[n].delete
  }

  /** The instance has an id, and if it is flagged, its key is in the store and was put there by
      that very instance. */
  ghost predicate OwnedBy(w: World, n: nat) {
    n in w.instances ==>
      var id := w.instances[n].id;
      id != "" && (w.instances[n].delete ==> id in w.keys && id in w.putBy && w.putBy[id] == n)
  }

  ghost predicate Owned(w: World) {
    forall n :: OwnedBy(w, n)
  }

  /** No key of the store that stems from before the run is at the mercy of a flagged instance. */
  ghost predicate AdoptedAreSafe(w: World) {
    forall n :: Flagged(w, n) && w.instances[n].id in w.keys ==> w.instances[n].id in w.putBy
  }

  /** The step removes the key of a flagged instance, which does not get to know it. */
  ghost predicate CutsOff(w: World, step: Step) {
    step.Delete? && Flagged(w, step.n) && step.delivery == Garbled
  }

  /** Everything the step removes from the store was put there by the instance that takes it. */
  ghost predicate RemovesOwn(w: World, step: Step) {
    forall k :: k in w.keys && k !in After(w, step).keys ==>
                  step.Delete? && Flagged(w, step.n) && w.instances[step.n].id == k &&
                  k in w.putBy && w.putBy[k] == step.n
  }

  lemma OthersKeep(w: World, step: Step, n: nat)
    requires n != step.n && OwnedBy(w, n) && RemovesOwn(w, step)
    ensures OwnedBy(After(w, step), n)
  {
    assert n in After(w, step).instances ==> n in w.instances && After(w, step).instances[n] == w.instances[n];
    if Flagged(w, n) {
      var id := w.instances[n].id;
      assert id in After(w, step).keys;
    }
  }

  lemma SelfKeepsExactly(w: World, step: Step)
    requires OwnedBy(w, step.n)
    ensures OwnedBy(After(w, step), step.n) <==> !CutsOff(w, step)
  {
  }

  lemma StepRemovesOwn(w: World, step: Step)
    requires OwnedBy(w, step.n)
    ensures RemovesOwn(w, step)
  {
  }

  /** One step from a world in which every flag is right. */
  lemma StepOwnedExactly(w: World, step: Step)
    requires Owned(w)
    ensures RemovesOwn(w, step)
    ensures Owned(After(w, step)) <==> !CutsOff(w, step)
  {
    assert OwnedBy(w, step.n);
    StepRemovesOwn(w, step);
    SelfKeepsExactly(w, step);
    forall n: nat | n != step.n ensures OwnedBy(After(w, step), n) {
      assert OwnedBy(w, n);
      OthersKeep(w, step, n);
    }
  }

  ghost predicate OwnedAt(w: World, steps: seq<Step>, i: nat)
    requires i <= |steps|
  {
    Owned(Run(w, steps[..i]))
  }

  ghost predicate CutsOffAt(w: World, steps: seq<Step>, i: nat)
    requires i < |steps|
  {
    CutsOff(Run(w, steps[..i]), steps[i])
  }

  ghost predicate RemovesOwnAt(w: World, steps: seq<Step>, i: nat)
    requires i < |steps|
  {
    RemovesOwn(Run(w, steps[..i]), steps[i])
  }

  lemma OwnedNextExactly(w: World, steps: seq<Step>, i: nat)
    requires i < |steps| && OwnedAt(w, steps, i)
    ensures RemovesOwnAt(w, steps, i)
    ensures OwnedAt(w, steps, i + 1) <==> !CutsOffAt(w, steps, i)
  {
    RunOneMore(w, steps, i);
    StepOwnedExactly(Run(w, steps[..i]), steps[i]);
  }

  lemma {:induction false} OwnedUntilCutOff(w: World, steps: seq<Step>, i: nat)
    requires Owned(w) && i <= |steps|
    requires forall j :: 0 <= j < i ==> !CutsOffAt(w, steps, j)
    ensures OwnedAt(w, steps, i)
  {
    if i > 0 {
      OwnedUntilCutOff(w, steps, i - 1);
      OwnedNextExactly(w, steps, i - 1);
    }
  }

  /** Ownership over runs: it holds at every point of a run exactly when no step of the run cuts a
      flagged instance off from its key; and then every removal is of the remover's own key. */
  lemma OwnedThroughoutExactly(w: World, steps: seq<Step>)
    requires Owned(w)
    ensures (forall i :: 0 <= i <= |steps| ==> OwnedAt(w, steps, i)) <==>
            (forall i :: 0 <= i < |steps| ==> !CutsOffAt(w, steps, i))
    ensures (forall i :: 0 <= i < |steps| ==> !CutsOffAt(w, steps, i)) ==>
            (forall i :: 0 <= i < |steps| ==> RemovesOwnAt(w, steps, i))
  {
    if forall i :: 0 <= i < |steps| ==> !CutsOffAt(w, steps, i) {
      forall i | 0 <= i <= |steps| ensures OwnedAt(w, steps, i) {
        OwnedUntilCutOff(w, steps, i);
      }
    }
    if forall i :: 0 <= i <= |steps| ==> OwnedAt(w, steps, i) {
      forall i | 0 <= i < |steps| ensures !CutsOffAt(w, steps, i) && RemovesOwnAt(w, steps, i) {
        assert OwnedAt(w, steps, i + 1);
        OwnedNextExactly(w, steps, i);
      }
    }
  }

  /** At every point of a run that no step has cut anybody off in, at most one instance per path holds
      the flag. */
  lemma OneFlagPerPath(w: World, steps: seq<Step>, i: nat, a: nat, b: nat)
    requires Owned(w) && i <= |steps| && forall j :: 0 <= j < i ==> !CutsOffAt(w, steps, j)
    requires var v := Run(w, steps[..i]);
             Flagged(v, a) && Flagged(v, b) && v.instances[a].id == v.instances[b].id
    ensures a == b
  {
    OwnedUntilCutOff(w, steps, i);
    var v := Run(w, steps[..i]);
    assert OwnedBy(v, a) && OwnedBy(v, b);
  }

  lemma RunOneMore(w: World, steps: seq<Step>, i: nat)
    requires i < |steps|
    ensures Run(w, steps[..i + 1]) == After(Run(w, steps[..i]), steps[i])
  {
    assert steps[..i + 1][..i] == steps[..i];
  }

  /** A create leaves an instance behind exactly if it adopts the path or put its own key there, even
      when the read after it fails; it is flagged exactly in the second case. */
  lemma CreateKeepsExactly(w: World, n: nat, path: string, material: string, delivery: Delivery, readable: bool)
    requires n !in w.instances
    ensures var v := After(w, Create(n, path, material, delivery, readable));
            && (n in v.instances <==> path != "" && (material == "" || (delivery == Answered && path !in w.keys)))
            && (Flagged(v, n) <==> n in v.instances && material != "")
            && (n in v.instances ==> v.instances[n].id == path)
            && (Flagged(v, n) ==> path in v.keys && v.keys[path] == material && v.putBy[path] == n)
            && (n in v.instances && readable && path in v.keys ==> v.instances[n].keyMaterial == v.keys[path])
            && v.keys == (if material != "" && path !in w.keys && delivery != Refused then w.keys[path := material]
                          else w.keys)
            && v.instances == (if n in v.instances then w.instances[n := v.instances[n]] else w.instances)
  {
  }

  /** An update stores new material, under the path it was configured for, exactly when it differs from the
      old and the key is there, unless it is refused; the instance shows what is stored if it gets to read
      it, and otherwise the new material. */
  lemma UpdateExactly(w: World, n: nat, material: string, delivery: Delivery, readable: bool)
    requires n in w.instances && w.instances[n].id != ""
    ensures var s, v := w.instances[n], After(w, Update(n, material, delivery, readable));
            var changed := material != s.keyMaterial;
            var isRead := readable && s.id in v.keys && (changed ==> s.path in w.keys && delivery == Answered);
            && v.keys == (if changed && s.path in w.keys && delivery != Refused then w.keys[s.path := material]
                          else w.keys)
            && v.instances == w.instances[n := s.(keyMaterial := if isRead then v.keys[s.id] else material)]
  {
  }

  /** A refresh drops the instance whose key is gone and otherwise shows what is stored. */
  lemma RefreshExactly(w: World, n: nat, readable: bool)
    requires n in w.instances && w.instances[n].id != ""
    ensures var s, v := w.instances[n], After(w, Refresh(n, readable));
            && v.keys == w.keys
            && v.instances == if !readable then w.instances
                              else if s.id in w.keys then w.instances[n := s.(keyMaterial := w.keys[s.id])]
                              else w.instances - {n}
  {
  }

  /** A delete removes the key of a flagged instance, unless it is refused, and no other; the instance goes
      exactly if it is not flagged or was told that its key was removed. */
  lemma DeleteExactly(w: World, n: nat, delivery: Delivery)
    requires n in w.instances && w.instances[n].id != ""
    ensures var s, v := w.instances[n], After(w, Delete(n, delivery));
            && v.keys == (if s.delete && delivery != Refused then w.keys - {s.id} else w.keys)
            && v.instances == if !s.delete || (delivery == Answered && s.id in w.keys) then w.instances - {n}
                              else w.instances
  {
  }

  /** When the operations report success: if every request they make is answered and done. */
  lemma ReportsExactly(keys: map<string, string>, s: PublicKeyState, changed: bool, delivery: Delivery, readable: bool)
    ensures AfterCreate(keys, s, delivery, readable).ok <==>
            readable && if s.keyMaterial == "" then s.path in keys else delivery == Answered && s.path !in keys
    ensures AfterUpdate(keys, s, changed, delivery, readable).ok <==>
            readable && s.id in keys && (changed ==> delivery == Answered && s.path in keys)
    ensures AfterDelete(keys, s, delivery).ok <==> (s.delete ==> delivery == Answered && s.id in keys)
    ensures AfterRead(keys, s, readable).ok <==> readable && s.id in keys
  {
  }

  /** A refresh or an update neither creates nor removes keys, and flags nobody. */
  lemma OthersKeepKeys(w: World, step: Step, n: nat)
    requires step.Refresh? || step.Update?
    ensures After(w, step).keys.Keys == w.keys.Keys
    ensures Flagged(After(w, step), n) ==> Flagged(w, n) && After(w, step).instances[n].id == w.instances[n].id
    ensures step.Refresh? ==> After(w, step).keys == w.keys
  {
  }

  /** Deleting undoes creating, adopting included, exactly when the create did not leave behind a key
      that no instance knows of. */
  lemma DeleteUndoesCreateExactly(w: World, n: nat, path: string, material: string, delivery: Delivery, readable: bool)
    requires n !in w.instances
    ensures var v := After(After(w, Create(n, path, material, delivery, readable)), Delete(n, Answered));
            && v.instances == w.instances
            && (v.keys == w.keys <==>
                !(material != "" && path !in w.keys && (delivery == Garbled || (delivery == Answered && path == ""))))
  {
  }

  lemma StepKeepsAdopted(w: World, step: Step)
    requires AdoptedAreSafe(w)
    ensures AdoptedAreSafe(After(w, step))
    ensures forall k :: k in w.keys && k !in w.putBy ==> k in After(w, step).keys && k !in After(w, step).putBy
  {
    forall n | Flagged(After(w, step), n) && After(w, step).instances[n].id in After(w, step).keys
      ensures After(w, step).instances[n].id in After(w, step).putBy
    {
      assert n != step.n ==> Flagged(w, n);
    }
  }

  /** A key that was there before the run is never removed, whatever the steps and their replies. */
  lemma {:induction false} AdoptedNeverRemoved(w: World, steps: seq<Step>)
    requires AdoptedAreSafe(w)
    ensures AdoptedAreSafe(Run(w, steps))
    ensures forall k :: k in w.keys && k !in w.putBy ==> k in Run(w, steps).keys && k !in Run(w, steps).putBy
  {
    if steps != [] {
      AdoptedNeverRemoved(w, steps[..|steps| - 1]);
      StepKeepsAdopted(Run(w, steps[..|steps| - 1]), steps[|steps| - 1]);
    }
  }

  /** What being cut off leads to: another instance may create the key anew, and the first one's
      repeated delete then removes it. */
  lemma CutOffRemovesAnothersKey(w: World, n: nat, m: nat, material: string)
    requires Owned(w) && Flagged(w, n) && m !in w.instances && material != ""
    ensures var id := w.instances[n].id;
            var v := Run(w, [Delete(n, Garbled), Create(m, id, material, Answered, true)]);
            && Flagged(v, m) && v.instances[m].id == id && id in v.putBy && v.putBy[id] == m
            && id !in After(v, Delete(n, Answered)).keys && Flagged(After(v, Delete(n, Answered)), m)
  {
    var id := w.instances[n].id;
    var first, second := Delete(n, Garbled), Create(m, id, material, Answered, true);
    RunOneMore(w, [first, second], 0);
    RunOneMore(w, [first, second], 1);
    assert [first, second][..1] == [first] && [first, second][..2] == [first, second];
    assert OwnedBy(w, n);
  }
}
