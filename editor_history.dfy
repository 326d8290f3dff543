/** The image editor's state: a spec per part, an active part, and a linear history of
    snapshots with a cursor. The transitions are pure functions on `State`; the `Editor`
    class holds the same fields and its methods are proved to perform those transitions. */
module EditorHistory {
  import opened Types
  import Slot

  type Specs = map<Part, PartSpec>

  /** `Object.values(specs)`: the specs in key order. */
  type Snapshot = seq<PartSpec>

  function KeySet(keys: seq<Part>): set<Part> {
    set k | k in keys
  }

  /** `Object.values(m)` for the key order `keys`. */
  function Values(keys: seq<Part>, m: Specs): (r: Snapshot)
    requires forall k :: k in keys ==> k in m
    ensures |r| == |keys|
    ensures forall i :: 0 <= i < |keys| ==> r[i] == m[keys[i]]
  {
    seq(|keys|, i requires 0 <= i < |keys| => m[keys[i]])
  }

  /** `Object.fromEntries(keys.map((k, i) => [k, snap[i]]))`: later entries win. */
  function FromEntries(keys: seq<Part>, snap: Snapshot): (m: Specs)
    requires |snap| == |keys|
    ensures m.Keys == KeySet(keys)
    ensures Distinct(keys) ==> forall i :: 0 <= i < |keys| ==> m[keys[i]] == snap[i]
    decreases |keys|
  {
    if keys == [] then map[]
    else
      var n := |keys| - 1;
      var front := FromEntries(keys[..n], snap[..n]);
      FromEntriesStep(keys[..n], snap[..n], front, keys[n], snap[n]);
      assert keys[..n] + [keys[n]] == keys && snap[..n] + [snap[n]] == snap;
      front[keys[n] := snap[n]]
  }

  /** One more entry at the end: its key joins the key set, and with distinct keys it maps
      to its own value while the earlier keys keep theirs. */
  lemma FromEntriesStep(ks: seq<Part>, sn: Snapshot, front: Specs, k: Part, v: PartSpec)
    requires |sn| == |ks| && front.Keys == KeySet(ks)
    requires Distinct(ks) ==> forall i :: 0 <= i < |ks| ==> front[ks[i]] == sn[i]
    ensures front[k := v].Keys == KeySet(ks + [k])
    ensures Distinct(ks + [k]) ==> forall i :: 0 <= i < |ks| + 1 ==> front[k := v][(ks + [k])[i]] == (sn + [v])[i]
  {
    var all := ks + [k];
    forall x | x in all ensures x in ks || x == k {
      var j :| 0 <= j < |all| && all[j] == x;
      if j < |ks| { assert all[j] == ks[j]; }
    }
    assert forall x :: x in ks ==> x in all;
    if Distinct(all) {
      assert Distinct(ks) by {
        forall i, j | 0 <= i < j < |ks| ensures ks[i] != ks[j] { assert all[i] == ks[i] && all[j] == ks[j]; }
      }
      forall i | 0 <= i < |ks| ensures ks[i] != k { assert all[i] == ks[i] && all[|ks|] == k; }
    }
  }

  /** Rebuilding a map from its own values in key order gives the map back. */
  lemma FromEntriesOfValues(keys: seq<Part>, m: Specs)
    requires Distinct(keys) && m.Keys == KeySet(keys)
    ensures FromEntries(keys, Values(keys, m)) == m
  {
    var vs := Values(keys, m);
    var r := FromEntries(keys, vs);
    assert forall i :: 0 <= i < |keys| ==> r[keys[i]] == vs[i] == m[keys[i]];
    AgreeOnKeys(keys, r, m);
  }

  /** Two maps over the same key order's keys that agree at every key are equal. */
  lemma AgreeOnKeys(keys: seq<Part>, r: Specs, m: Specs)
    requires r.Keys == KeySet(keys) && m.Keys == KeySet(keys)
    requires forall i :: 0 <= i < |keys| ==> r[keys[i]] == m[keys[i]]
    ensures r == m
  {
    forall k | k in m ensures r[k] == m[k] {
      var i :| 0 <= i < |keys| && keys[i] == k;
    }
  }

  /** Reading the values of a rebuilt map gives the snapshot back. */
  lemma ValuesOfFromEntries(keys: seq<Part>, snap: Snapshot)
    requires Distinct(keys) && |snap| == |keys|
    ensures Values(keys, FromEntries(keys, snap)) == snap
  {
  }

  datatype State = State(keys: seq<Part>, specs: Specs, active: Part, history: seq<Snapshot>, index: nat)

  /** What every editor state satisfies: a fixed, duplicate-free key order naming exactly the
      spec map's keys, an existing active part, a non-empty history with
      0 <= index < |history|, snapshots of full length, and the live specs equal to the
      snapshot under the cursor. */
  predicate Consistent(s: State) {
    |s.keys| > 0 && Distinct(s.keys) && s.specs.Keys == KeySet(s.keys) && s.active in s.specs &&
    |s.history| > 0 && s.index < |s.history| &&
    (forall i :: 0 <= i < |s.history| ==> |s.history[i]| == |s.keys|) &&
    s.history[s.index] == Values(s.keys, s.specs)
  }

  /** The hook's initial state: the first key is active and the history holds one snapshot. */
  function Initial(keys: seq<Part>, specs: Specs): (s: State)
    requires |keys| > 0 && Distinct(keys) && specs.Keys == KeySet(keys)
    ensures Consistent(s) && s.active == keys[0] && |s.history| == 1 && s.index == 0
  {
    State(keys, specs, keys[0], [Values(keys, specs)], 0)
  }

  /** `updateSpec(k, f)`: entry k becomes f(old entry k) and every other entry is kept; the
      history is cut after the cursor, the new snapshot is appended, and the cursor points
      at it. */
  function Updated(s: State, k: Part, f: PartSpec -> PartSpec): (r: State)
    requires Consistent(s) && k in s.specs
    ensures Consistent(r)
    ensures r.keys == s.keys && r.active == s.active && r.specs.Keys == s.specs.Keys
    ensures r.specs[k] == f(s.specs[k])
    ensures forall j :: j in s.specs && j != k ==> r.specs[j] == s.specs[j]
    ensures |r.history| == s.index + 2 && r.index == |r.history| - 1
    ensures r.history[..s.index + 1] == s.history[..s.index + 1]
    ensures r.history[r.index] == Values(r.keys, r.specs)
  {
    var sp := s.specs[k := f(s.specs[k])];
    State(s.keys, sp, s.active, s.history[..s.index + 1] + [Values(s.keys, sp)], s.index + 1)
  }

  /** The live specs replaced by snapshot j, the cursor moved to j. */
  function MovedTo(s: State, j: nat): (r: State)
    requires Consistent(s) && j < |s.history|
    ensures Consistent(r)
    ensures r.keys == s.keys && r.history == s.history && r.active == s.active && r.index == j
    ensures Values(r.keys, r.specs) == s.history[j]
  {
    ValuesOfFromEntries(s.keys, s.history[j]);
    s.(index := j, specs := FromEntries(s.keys, s.history[j]))
  }

  /** `undo`: at the first snapshot nothing changes; otherwise the cursor moves back one and
      that snapshot becomes the live specs. */
  function Undone(s: State): (r: State)
    requires Consistent(s)
    ensures Consistent(r)
    ensures r.keys == s.keys && r.history == s.history && r.active == s.active
    ensures s.index == 0 ==> r == s
    ensures s.index > 0 ==> r.index == s.index - 1 && Values(r.keys, r.specs) == s.history[s.index - 1]
  {
    if s.index > 0 then MovedTo(s, s.index - 1) else s
  }

  /** `redo`: at the last snapshot nothing changes; otherwise the cursor moves forward one
      and that snapshot becomes the live specs. */
  function Redone(s: State): (r: State)
    requires Consistent(s)
    ensures Consistent(r)
    ensures r.keys == s.keys && r.history == s.history && r.active == s.active
    ensures s.index + 1 == |s.history| ==> r == s
    ensures s.index + 1 < |s.history| ==> r.index == s.index + 1 && Values(r.keys, r.specs) == s.history[s.index + 1]
  {
    if s.index + 1 < |s.history| then MovedTo(s, s.index + 1) else s
  }

  /** Undo followed by redo restores the specs that were live before the undo. */
  lemma UndoThenRedo(s: State)
    requires Consistent(s) && s.index > 0
    ensures Redone(Undone(s)) == s
  {
    FromEntriesOfValues(s.keys, s.specs);
  }

  /** Redo followed by undo restores the specs that were live before the redo. */
  lemma RedoThenUndo(s: State)
    requires Consistent(s) && s.index + 1 < |s.history|
    ensures Undone(Redone(s)) == s
  {
    FromEntriesOfValues(s.keys, s.specs);
  }

  /** After an edit nothing can be redone. */
  lemma RedoAfterEditIsNoop(s: State, k: Part, f: PartSpec -> PartSpec)
    requires Consistent(s) && k in s.specs
    ensures Redone(Updated(s, k, f)) == Updated(s, k, f)
  {
  }

  /** n undos in a row. */
  function Undos(s: State, n: nat): (r: State)
    requires Consistent(s)
    ensures Consistent(r) && r.keys == s.keys && r.history == s.history
    ensures r.index == if n <= s.index then s.index - n else 0
    decreases n
  {
    if n == 0 then s else Undos(Undone(s), n - 1)
  }

  /** Any number of undos followed by one edit discards every redoable snapshot: the new
      history ends at the new snapshot and keeps exactly the entries up to the cursor. */
  lemma {:induction false} EditAfterUndosDiscardsRedo(s: State, n: nat, k: Part, f: PartSpec -> PartSpec)
    requires Consistent(s) && k in s.specs
    ensures var u := Undos(s, n);
      var e := Updated(u, k, f);
      Redone(e) == e && e.history[..u.index + 1] == s.history[..u.index + 1] &&
      |e.history| == (if n <= s.index then s.index - n else 0) + 2
  {
    var u := Undos(s, n);
    assert u.specs.Keys == KeySet(u.keys) == s.specs.Keys;
    RedoAfterEditIsNoop(u, k, f);
  }

  // ---- the spec transformers of the hook ----

  /** `cover`: the identity transform, everything else kept. */
  function Cover(s: PartSpec): (r: PartSpec)
    ensures r.tx == 0.0 && r.ty == 0.0 && r.scale == 1.0 && r.rot == 0.0
    ensures r == s.(tx := r.tx, ty := r.ty, scale := r.scale, rot := r.rot)
  {
    s.(tx := 0.0, ty := 0.0, scale := 1.0, rot := 0.0)
  }

  /** `fitW`: only ty is zeroed. */
  function FitW(s: PartSpec): (r: PartSpec)
    ensures r.ty == 0.0 && r == s.(ty := r.ty)
  {
    s.(ty := 0.0)
  }

  /** `fitH`: only tx is zeroed. */
  function FitH(s: PartSpec): (r: PartSpec)
    ensures r.tx == 0.0 && r == s.(tx := r.tx)
  {
    s.(tx := 0.0)
  }

  /** `center`: tx and ty are zeroed, scale and rotation kept. */
  function Center(s: PartSpec): (r: PartSpec)
    ensures r.tx == 0.0 && r.ty == 0.0 && r == s.(tx := r.tx, ty := r.ty)
  {
    s.(tx := 0.0, ty := 0.0)
  }

  /** How the helpers relate: centring is fitting both ways, each helper is idempotent, and
      cover subsumes centring. */
  lemma HelpersAlgebra(s: PartSpec)
    ensures Center(s) == FitW(FitH(s)) == FitH(FitW(s))
    ensures Cover(Cover(s)) == Cover(s) && Center(Center(s)) == Center(s)
    ensures FitW(FitW(s)) == FitW(s) && FitH(FitH(s)) == FitH(s)
    ensures Cover(Center(s)) == Cover(s) && Center(Cover(s)) == Cover(s)
  {
  }

  /** `nudge(dx, dy)`'s updater: shift the translation. */
  function Nudged(s: PartSpec, dx: real, dy: real): (r: PartSpec)
    ensures r.tx - s.tx == dx && r.ty - s.ty == dy && r == s.(tx := r.tx, ty := r.ty)
  {
    s.(tx := s.tx + dx, ty := s.ty + dy)
  }

  /** Nudges add up, and a nudge is undone by the opposite nudge. */
  lemma NudgeGroup(s: PartSpec, a: real, b: real, c: real, d: real)
    ensures Nudged(Nudged(s, a, b), c, d) == Nudged(s, a + c, b + d)
    ensures Nudged(Nudged(s, a, b), -a, -b) == s
  {
  }

  datatype ZoomSign = In | Out

  function ZoomFactor(z: ZoomSign): real {
    if z == In then 1.05 else 0.95
  }

  /** `zoom(sign)`'s updater: multiply the scale by 1.05 or 0.95 and clamp into [0.2, 5]. */
  function Zoomed(s: PartSpec, z: ZoomSign): (r: PartSpec)
    ensures 0.2 <= r.scale <= 5.0 && r == s.(scale := r.scale)
    ensures 0.2 <= s.scale * ZoomFactor(z) <= 5.0 ==> r.scale == s.scale * ZoomFactor(z)
  {
    s.(scale := Slot.Clamp(0.2, 5.0, s.scale * ZoomFactor(z)))
  }

  /** Zooming in and then out does not come back: away from the bounds it leaves
      0.9975 times the scale. */
  lemma ZoomInOutDrifts(s: PartSpec)
    requires 0.2 <= s.scale * 1.05 <= 5.0 && 0.2 <= s.scale * 1.05 * 0.95 <= 5.0
    ensures Zoomed(Zoomed(s, In), Out).scale == 0.9975 * s.scale
    ensures Zoomed(Zoomed(s, In), Out).scale != s.scale
  {
  }

  /** The zoom buttons reach scales below 1, which no gesture can store. */
  lemma ZoomGoesBelowOne(p: Part)
    ensures Zoomed(Identity(p), Out).scale == 0.95
  {
  }

  class Editor {
    const keys: seq<Part>
    var specs: Specs
    var active: Part
    var history: seq<Snapshot>
    var index: nat

    function Current(): State
      reads this
    {
      State(keys, specs, active, history, index)
    }

    ghost predicate Valid()
      reads this
    {
      Consistent(Current())
    }

    /** `useImageEditor(initialSpecs)` */
    constructor (initialKeys: seq<Part>, initial: Specs)
      requires |initialKeys| > 0 && Distinct(initialKeys) && initial.Keys == KeySet(initialKeys)
      ensures Valid() && Current() == Initial(initialKeys, initial)
    {
      keys := initialKeys;
      specs := initial;
      active := initialKeys[0];
      history := [Values(initialKeys, initial)];
      index := 0;
    }

    method UpdateSpec(k: Part, f: PartSpec -> PartSpec)
      requires Valid() && k in specs
      modifies this
      ensures Valid() && Current() == Updated(old(Current()), k, f)
    {
      var r := Updated(Current(), k, f);
      specs, history, index := r.specs, r.history, r.index;
    }

    method Undo()
      requires Valid()
      modifies this
      ensures Valid() && Current() == Undone(old(Current()))
    {
      var r := Undone(Current());
      index, specs := r.index, r.specs;
    }

    method Redo()
      requires Valid()
      modifies this
      ensures Valid() && Current() == Redone(old(Current()))
    {
      var r := Redone(Current());
      index, specs := r.index, r.specs;
    }

    /** `setActive`, called only with a part the editor holds. */
    method SetActive(k: Part)
      requires Valid() && k in specs
      modifies this`active
      ensures Valid() && Current() == old(Current()).(active := k)
    {
      active := k;
    }

    method Nudge(dx: real, dy: real)
      requires Valid()
      modifies this
      ensures Valid() && Current() == Updated(old(Current()), old(active), s => Nudged(s, dx, dy))
    {
      UpdateSpec(active, s => Nudged(s, dx, dy));
    }

    method Zoom(z: ZoomSign)
      requires Valid()
      modifies this
      ensures Valid() && Current() == Updated(old(Current()), old(active), s => Zoomed(s, z))
    {
      UpdateSpec(active, s => Zoomed(s, z));
    }
  }
}
