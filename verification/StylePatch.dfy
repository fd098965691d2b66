/** Partial styles: applying them (packages/core/src/presets.ts) and coalescing them (apps/web/src/lib/patch-queue.ts). */
module StylePatch {
  import opened Common

  datatype Value = Int(i: int) | Real(r: real) | Text(s: string) | Flag(b: bool)

  datatype Group = Stroke | Shadow | Background | Highlight | Motion | Emoji

  type Fields = map<string, Value>

  /** A field given as None is present with the value `undefined`. */
  type PartialFields = map<string, Option<Value>>

  /** A full style: plain fields and six nested groups. */
  datatype Style = Style(flat: Fields, groups: map<Group, Fields>)

  /** A patch: plain fields and groups, each possibly absent, possibly present as `undefined`. */
  datatype Patch = Patch(flat: PartialFields, groups: map<Group, Option<PartialFields>>)

  const ALL_GROUPS: set<Group> := {Stroke, Shadow, Background, Highlight, Motion, Emoji}

  /** The groups that coalescing merges field by field; the other two are replaced as a whole. */
  const MERGED_GROUPS: set<Group> := {Stroke, Shadow, Background, Highlight}

  predicate WellFormed(s: Style) {
    s.groups.Keys == ALL_GROUPS
  }

  function Defined(p: PartialFields): Fields {
    map k | k in p && p[k].Some? :: p[k].value
  }

  function Entries(p: Patch, g: Group): PartialFields {
    if g in p.groups && p.groups[g].Some? then p.groups[g].value else map[]
  }

  function GroupOf(s: Style, g: Group): Fields {
    if g in s.groups then s.groups[g] else map[]
  }

  /** The merged object of applyStylePatch, before validation. */
  function Merged(base: Style, patch: Patch): (merged: Style)
    ensures WellFormed(merged)
  {
    Style(base.flat + Defined(patch.flat), map g | g in ALL_GROUPS :: GroupOf(base, g) + Defined(Entries(patch, g)))
  }

  /** The patched style, or None when it is not valid. */
  function ApplyStylePatch(valid: Style -> bool, base: Style, patch: Patch): Option<Style>
  {
    var merged := Merged(base, patch);
    if valid(merged) then Some(merged) else None
  }

  /** Coalesce a later patch into a pending one. */
  function MergeStylePatch(base: Option<Patch>, patch: Patch): Patch {
    if base.None? then patch
    else
      var b := base.value;
      Patch(b.flat + patch.flat, map g | g in b.groups.Keys + patch.groups.Keys :: MergedGroup(b, patch, g))
  }

  /** The later patch's entry wins, except that the four merged groups combine their fields. */
  function MergedGroup(b: Patch, patch: Patch, g: Group): Option<PartialFields>
    requires g in b.groups || g in patch.groups
  {
    if g in MERGED_GROUPS && (Truthy(b, g) || Truthy(patch, g)) then Some(Entries(b, g) + Entries(patch, g))
    else if g in patch.groups then patch.groups[g]
    else b.groups[g]
  }

  predicate Truthy(p: Patch, g: Group) {
    g in p.groups && p.groups[g].Some?
  }

  // ---------------------------------------------------------------- one field at a time

  /** A place in a style: a plain field, or a field of a group. */
  datatype Spot = Plain(key: string) | In(group: Group, key: string)

  function Lookup(fields: Fields, k: string): Option<Value> {
    if k in fields then Some(fields[k]) else None
  }

  lemma AllGroups(g: Group)
    ensures g in ALL_GROUPS
  {
    match g
    case Stroke => case Shadow => case Background => case Highlight => case Motion => case Emoji =>
  }

  function At(s: Style, x: Spot): Option<Value> {
    match x
    case Plain(k) => Lookup(s.flat, k)
    case In(g, k) => Lookup(GroupOf(s, g), k)
  }

  /** What a patch sets there, if it sets anything. */
  function SetAt(p: Patch, x: Spot): Option<Value> {
    match x
    case Plain(k) => Lookup(Defined(p.flat), k)
    case In(g, k) => Lookup(Defined(Entries(p, g)), k)
  }

  /**
   * The earlier patch sets the field and the later one does not, but carries it as `undefined`, or carries the whole
   * `motion` or `emoji` group without it.
   */
  predicate IsLost(p: Patch, q: Patch, x: Spot) {
    && SetAt(p, x).Some? && SetAt(q, x).None?
    && match x
       case Plain(k) => k in q.flat
       case In(g, k) => if g in MERGED_GROUPS then k in Entries(q, g) else g in q.groups
  }

  /** Styles are equal when they are so in every place. */
  lemma SpotsMakeStyle(a: Style, b: Style)
    requires WellFormed(a) && WellFormed(b) && forall x :: At(a, x) == At(b, x)
    ensures a == b
  {
    forall k
      ensures Lookup(a.flat, k) == Lookup(b.flat, k)
    {
      assert At(a, Plain(k)) == At(b, Plain(k));
    }
    SameLookups(a.flat, b.flat);
    forall g | g in ALL_GROUPS
      ensures a.groups[g] == b.groups[g]
    {
      forall k
        ensures Lookup(a.groups[g], k) == Lookup(b.groups[g], k)
      {
        assert At(a, In(g, k)) == At(b, In(g, k));
      }
      SameLookups(a.groups[g], b.groups[g]);
    }
  }

  lemma SameLookups(a: Fields, b: Fields)
    requires forall k :: Lookup(a, k) == Lookup(b, k)
    ensures a == b
  {
    forall k
      ensures k in a <==> k in b
      ensures k in a ==> a[k] == b[k]
    {
      assert Lookup(a, k) == Lookup(b, k);
    }
  }

  lemma MergedAt(s: Style, p: Patch, x: Spot)
    ensures At(Merged(s, p), x) == if SetAt(p, x).Some? then SetAt(p, x) else At(s, x)
  {
    if x.In? {
      AllGroups(x.group);
    }
  }

  /** Entries of group g after coalescing. */
  lemma MergedEntries(p: Patch, q: Patch, g: Group)
    ensures Entries(MergeStylePatch(Some(p), q), g) ==
            if g in MERGED_GROUPS then Entries(p, g) + Entries(q, g)
            else if g in q.groups then Entries(q, g)
            else Entries(p, g)
  {
  }

  lemma CoalescedAt(p: Patch, q: Patch, x: Spot)
    ensures SetAt(MergeStylePatch(Some(p), q), x) ==
            if IsLost(p, q, x) then None else if SetAt(q, x).Some? then SetAt(q, x) else SetAt(p, x)
  {
    if x.In? {
      MergedEntries(p, q, x.group);
    }
  }

  /** What the coalesced patch leaves in a place, and what the two patches leave there in turn. */
  lemma BothAt(s: Style, p: Patch, q: Patch, x: Spot)
    ensures var (one, two) := (At(Merged(s, MergeStylePatch(Some(p), q)), x), At(Merged(Merged(s, p), q), x));
            if IsLost(p, q, x) then one == At(s, x) && two == SetAt(p, x) else one == two
  {
    MergedAt(s, MergeStylePatch(Some(p), q), x);
    MergedAt(s, p, x);
    MergedAt(Merged(s, p), q, x);
    CoalescedAt(p, q, x);
  }

  // ---------------------------------------------------------------- when coalescing loses nothing

  /** The condition a caller can check before coalescing. */
  ghost predicate Coalescable(p: Patch, q: Patch) {
    forall x :: !IsLost(p, q, x)
  }

  ghost predicate SameEffect(s: Style, p: Patch, q: Patch) {
    Merged(s, MergeStylePatch(Some(p), q)) == Merged(Merged(s, p), q)
  }

  /** On one style, coalescing has the effect of both patches exactly when each lost field already has the lost value. */
  lemma SameEffectExactly(s: Style, p: Patch, q: Patch)
    ensures SameEffect(s, p, q) <==> forall x :: IsLost(p, q, x) ==> At(s, x) == SetAt(p, x)
  {
    if forall x :: IsLost(p, q, x) ==> At(s, x) == SetAt(p, x) {
      var one, two := Merged(s, MergeStylePatch(Some(p), q)), Merged(Merged(s, p), q);
      forall x
        ensures At(one, x) == At(two, x)
      {
        BothAt(s, p, q, x);
      }
      SpotsMakeStyle(one, two);
    } else {
      var x :| IsLost(p, q, x) && At(s, x) != SetAt(p, x);
      BothAt(s, p, q, x);
    }
  }

  /**
   * Over any styles that leave each field the earlier patch sets at least one other value, the valid ones for example:
   * coalescing has the effect of both patches on all of them exactly for coalescable patches.
   */
  lemma CoalescingIsExactOver(styles: Style -> bool, p: Patch, q: Patch)
    requires forall x :: SetAt(p, x).Some? ==> exists s :: WellFormed(s) && styles(s) && At(s, x) != SetAt(p, x)
    ensures Coalescable(p, q) <==> forall s :: WellFormed(s) && styles(s) ==> SameEffect(s, p, q)
  {
    if Coalescable(p, q) {
      forall s | WellFormed(s) && styles(s)
        ensures SameEffect(s, p, q)
      {
        SameEffectExactly(s, p, q);
      }
    } else {
      var x :| IsLost(p, q, x);
      var s :| WellFormed(s) && styles(s) && At(s, x) != SetAt(p, x);
      SameEffectExactly(s, p, q);
    }
  }

  /** Over all styles no such proviso is needed. */
  lemma CoalescingIsExact(p: Patch, q: Patch)
    ensures Coalescable(p, q) <==> forall s :: WellFormed(s) ==> SameEffect(s, p, q)
  {
    var empty := Style(map[], map g | g in ALL_GROUPS :: map[]);
    forall x | SetAt(p, x).Some?
      ensures exists s :: WellFormed(s) && At(s, x) != SetAt(p, x)
    {
      assert WellFormed(empty) && At(empty, x) == None;
    }
    CoalescingIsExactOver(s => true, p, q);
  }

  /** With validation: when the first patch alone is accepted, one coalesced request ends as the two requests would. */
  lemma CoalescingValidated(valid: Style -> bool, s: Style, p: Patch, q: Patch)
    requires Coalescable(p, q) && ApplyStylePatch(valid, s, p).Some?
    ensures ApplyStylePatch(valid, s, MergeStylePatch(Some(p), q)) ==
            ApplyStylePatch(valid, ApplyStylePatch(valid, s, p).value, q)
  {
    SameEffectExactly(s, p, q);
  }

  /** Patches without explicit `undefined` that do not both carry `motion` or both carry `emoji` are coalescable. */
  lemma PlainPatchesCoalesce(p: Patch, q: Patch)
    requires forall k :: k in q.flat ==> q.flat[k].Some?
    requires forall g :: g in q.groups ==> q.groups[g].Some? && forall k :: k in Entries(q, g) ==> Entries(q, g)[k].Some?
    requires forall g :: g in {Motion, Emoji} ==> !(g in p.groups && g in q.groups)
    ensures Coalescable(p, q)
  {
    forall x
      ensures !IsLost(p, q, x)
    {
      if x.In? && x.group !in MERGED_GROUPS {
        AllGroups(x.group);
      }
    }
  }

  /** Once a later patch carries `motion` or `emoji`, nothing an earlier pending patch set in that group survives. */
  lemma LaterGroupReplacesEarlier(s: Style, p: Patch, q: Patch, g: Group)
    requires g in ALL_GROUPS - MERGED_GROUPS && g in q.groups
    ensures Merged(s, MergeStylePatch(Some(p), q)).groups[g] == Merged(s, q).groups[g]
  {
    MergedEntries(p, q, g);
  }

  /**
   * Two `motion` edits in one debounce window, on any style whose entrance takes 200 ms: coalesced, the first edit to 300 ms
   * is lost, while the two requests would have left 300 ms.
   */
  lemma MotionEditIsLost(s: Style, first: Patch, second: Patch)
    requires first == Patch(map[], map[Motion := Some(map["enterDurationMs" := Some(Int(300))])])
    requires second == Patch(map[], map[Motion := Some(map["exitDurationMs" := Some(Int(50))])])
    requires WellFormed(s) && At(s, In(Motion, "enterDurationMs")) == Some(Int(200))
    ensures At(Merged(s, MergeStylePatch(Some(first), second)), In(Motion, "enterDurationMs")) == Some(Int(200))
    ensures At(Merged(Merged(s, first), second), In(Motion, "enterDurationMs")) == Some(Int(300))
    ensures !Coalescable(first, second)
  {
    var x := In(Motion, "enterDurationMs");
    assert |"exitDurationMs"| != |"enterDurationMs"|;
    assert IsLost(first, second, x);
    BothAt(s, first, second, x);
  }
}
