/** Which skill a reference means, and how an agent's references split into resolved and unresolved ones. */
module SkillRefs {
  import opened Values
  import opened Text

  datatype SkillRef = SkillRef(name: string, version: string)

  /** A Skill resource; `skill` and `agent` are its two labels, `loadable` says whether its content can be had or it
      declares none. */
  datatype Skill = Skill(namespace: string, name: string, skill: string, agent: string, version: string, loadable: bool)

  datatype Agent = Agent(namespace: string, name: string)

  const PLATFORM := "agent-office"

  ghost predicate Labelled(a: Agent, ref: SkillRef, s: Skill) { s.namespace == a.namespace && s.skill == ref.name }

  /** How good a labelled candidate is: the agent's own, then the pinned version, then any. */
  ghost function Preference(a: Agent, ref: SkillRef, s: Skill): nat {
    if s.agent == a.name then 0 else if ref.version != "" && s.version == ref.version then 1 else 2
  }

  /** A labelled skill of the best kind there is, and within the pool the code takes it from the first by name:
      among the agent's own, among the pinned, or among all. */
  ghost predicate BestLabelled(a: Agent, ref: SkillRef, skills: seq<Skill>, s: Skill) {
    && s in skills && Labelled(a, ref, s)
    && (forall t :: t in skills && Labelled(a, ref, t) ==> Preference(a, ref, s) <= Preference(a, ref, t))
    && (forall t :: t in skills && Labelled(a, ref, t) && Preference(a, ref, t) == Preference(a, ref, s) ==> Leq(s.name, t.name))
  }

  ghost predicate AnyLabelled(a: Agent, ref: SkillRef, skills: seq<Skill>) {
    exists s :: s in skills && Labelled(a, ref, s)
  }

  ghost predicate Exact(namespace: string, name: string, skills: seq<Skill>, s: Skill) {
    s in skills && s.namespace == namespace && s.name == name
  }

  ghost predicate NoExact(namespace: string, name: string, skills: seq<Skill>) {
    forall s :: s in skills ==> !(s.namespace == namespace && s.name == name)
  }

  /** What the reference means: a labelled skill of the agent's namespace if there is one, else the skill of exactly that
      name there, else the platform's. */
  ghost predicate Means(a: Agent, ref: SkillRef, skills: seq<Skill>, r: Option<Skill>) {
    if AnyLabelled(a, ref, skills) then r.Some? && BestLabelled(a, ref, skills, r.value)
    else if !NoExact(a.namespace, ref.name, skills) then r.Some? && Exact(a.namespace, ref.name, skills, r.value)
    else if !NoExact("agent-office", ref.name, skills) then r.Some? && Exact("agent-office", ref.name, skills, r.value)
    else r.None?
  }

  /** One resource a name and namespace. */
  ghost predicate Unique(skills: seq<Skill>) {
    forall s, t :: s in skills && t in skills && s.namespace == t.namespace && s.name == t.name ==> s == t
  }

  /** A reference means at most one skill. */
  lemma MeansOne(a: Agent, ref: SkillRef, skills: seq<Skill>, r: Option<Skill>, q: Option<Skill>)
    requires Unique(skills) && Means(a, ref, skills, r) && Means(a, ref, skills, q)
    ensures r == q
  {
    if AnyLabelled(a, ref, skills) {
      hide Leq, Preference;
      LeqTotal(r.value.name, q.value.name);
    }
  }

  ghost predicate ByName(items: seq<Skill>) {
    forall i, j :: 0 <= i < j < |items| ==> Leq(items[i].name, items[j].name)
  }

  method FindRefSkill(a: Agent, ref: SkillRef, skills: seq<Skill>) returns (r: Option<Skill>)
    ensures Means(a, ref, skills, r)
  {
    hide Leq;
    var items := LabelledItems(a, ref, skills);
    if |items| > 0 {
      var sorted := SortBy(items, (s: Skill) => s.name);
      SameMembers(items, sorted);
      r := PickLabelled(a, ref, sorted);
      return;
    }
    r := ByExactName(a.namespace, ref.name, skills);
    if r.None? { r := ByExactName(PLATFORM, ref.name, skills); }
  }

  lemma SameMembers(a: seq<Skill>, b: seq<Skill>)
    requires multiset(a) == multiset(b)
    ensures |a| == |b| && forall s :: s in a <==> s in b
  {
    assert |multiset(a)| == |multiset(b)|;
    forall s ensures s in a <==> s in b {
      assert s in a <==> s in multiset(a);
      assert s in b <==> s in multiset(b);
    }
  }

  method LabelledItems(a: Agent, ref: SkillRef, skills: seq<Skill>) returns (items: seq<Skill>)
    ensures forall s :: s in items <==> s in skills && Labelled(a, ref, s)
  {
    items := [];
    for i := 0 to |skills|
      invariant forall s :: s in items <==> s in skills[..i] && Labelled(a, ref, s)
    {
      if skills[i].namespace == a.namespace && skills[i].skill == ref.name { items := items + [skills[i]]; }
    }
  }

  method PickLabelled(a: Agent, ref: SkillRef, items: seq<Skill>) returns (r: Option<Skill>)
    requires |items| > 0 && ByName(items)
    ensures r.Some? && r.value in items
    ensures forall t :: t in items ==> Preference(a, ref, r.value) <= Preference(a, ref, t)
    ensures forall t :: t in items && Preference(a, ref, t) == Preference(a, ref, r.value) ==> Leq(r.value.name, t.name)
  {
    hide Leq;
    FirstIsLeast(items);
    for i := 0 to |items|
      invariant forall k :: 0 <= k < i ==> items[k].agent != a.name
    {
      if items[i].agent == a.name {
        Reflexive(items[i]);
        return Some(items[i]);
      }
    }
    if ref.version != "" {
      for i := 0 to |items|
        invariant forall k :: 0 <= k < i ==> items[k].version != ref.version
      {
        if items[i].version == ref.version {
          Reflexive(items[i]);
          return Some(items[i]);
        }
      }
    }
    return Some(items[0]);
  }

  lemma Reflexive(s: Skill)
    ensures Leq(s.name, s.name)
  {
    LeqTotal(s.name, s.name);
  }

  lemma FirstIsLeast(items: seq<Skill>)
    requires |items| > 0 && ByName(items)
    ensures forall t :: t in items ==> Leq(items[0].name, t.name)
  {
    LeqTotal(items[0].name, items[0].name);
  }

  method ByExactName(namespace: string, name: string, skills: seq<Skill>) returns (r: Option<Skill>)
    ensures r.Some? ==> Exact(namespace, name, skills, r.value)
    ensures r.None? ==> NoExact(namespace, name, skills)
  {
    for i := 0 to |skills|
      invariant forall k :: 0 <= k < i ==> !(skills[k].namespace == namespace && skills[k].name == name)
    {
      if skills[i].namespace == namespace && skills[i].name == name { return Some(skills[i]); }
    }
    return None;
  }

  // ----- a list of references -----

  /** The first reference of each name counts, and the nameless ones do not. */
  ghost predicate FirstOfName(refs: seq<SkillRef>, i: int) {
    0 <= i < |refs| && refs[i].name != "" && forall k :: 0 <= k < i ==> refs[k].name != refs[i].name
  }

  ghost predicate Usable(ref: SkillRef, s: Skill) { (ref.version == "" || s.version == ref.version) && s.loadable }

  /** The skill as delivered, under the reference's name. */
  datatype Resolved = Resolved(name: string, skill: Skill)

  /** A resolved entry stands for the first reference of its name, and that reference means a usable skill. */
  ghost predicate Stands(a: Agent, refs: seq<SkillRef>, skills: seq<Skill>, r: Resolved) {
    exists i :: FirstOfName(refs, i) && refs[i].name == r.name
      && Means(a, refs[i], skills, Some(r.skill)) && Usable(refs[i], r.skill)
  }

  /** A name is unresolved because its first reference means nothing usable. */
  ghost predicate Missing(a: Agent, refs: seq<SkillRef>, skills: seq<Skill>, name: string) {
    exists i, m :: FirstOfName(refs, i) && refs[i].name == name
      && Means(a, refs[i], skills, m) && !(m.Some? && Usable(refs[i], m.value))
  }

  ghost function Heads(resolved: seq<Resolved>): seq<string> { seq(|resolved|, i requires 0 <= i < |resolved| => resolved[i].name) }

  lemma HeadsAppend(resolved: seq<Resolved>, r: Resolved)
    ensures Heads(resolved + [r]) == Heads(resolved) + [r.name]
  {
  }

  /** The bookkeeping: every name seen is resolved or unresolved, none is both, none appears twice. */
  ghost predicate Split(seen: set<string>, heads: seq<string>, unresolved: seq<string>) {
    && (forall n :: n in seen <==> n in heads || n in unresolved)
    && (forall n :: !(n in heads && n in unresolved))
    && (forall i, j :: 0 <= i < j < |heads| ==> heads[i] != heads[j])
    && (forall i, j :: 0 <= i < j < |unresolved| ==> unresolved[i] != unresolved[j])
  }

  lemma SplitMore(seen: set<string>, heads: seq<string>, unresolved: seq<string>, n: string)
    requires Split(seen, heads, unresolved) && n !in seen
    ensures Split(seen + {n}, heads + [n], unresolved) && Split(seen + {n}, heads, unresolved + [n])
  {
  }

  /** The distinct non-empty names of some references. */
  ghost function NamesOf(refs: seq<SkillRef>): set<string> { set ref | ref in refs && ref.name != "" :: ref.name }

  method ResolveOne(a: Agent, refs: seq<SkillRef>, i: nat, skills: seq<Skill>) returns (r: Option<Resolved>)
    requires FirstOfName(refs, i)
    ensures r.Some? ==> r.value.name == refs[i].name && Stands(a, refs, skills, r.value)
    ensures r.None? ==> Missing(a, refs, skills, refs[i].name)
  {
    hide Means;
    var found := FindRefSkill(a, refs[i], skills);
    if found.None? { return None; }
    if refs[i].version != "" && found.value.version != refs[i].version { return None; }
    if !found.value.loadable { return None; }
    return Some(Resolved(refs[i].name, found.value));
  }

  /** Splits the references: every distinct name is resolved or unresolved, none is both, none appears twice; the
      resolved ones come in strict order of their names. */
  method ListRefSkills(a: Agent, refs: seq<SkillRef>, skills: seq<Skill>) returns (resolved: seq<Resolved>, unresolved: seq<string>)
    ensures forall i :: 0 <= i < |resolved| ==> Stands(a, refs, skills, resolved[i])
    ensures forall i :: 0 <= i < |unresolved| ==> Missing(a, refs, skills, unresolved[i])
    ensures Split(NamesOf(refs), Heads(resolved), unresolved)
    ensures SortedNames(Heads(resolved))
  {
    hide Stands, Missing, Split, Heads;
    var seen: set<string> := {};
    resolved, unresolved := [], [];
    NothingSplit();
    for i := 0 to |refs|
      invariant seen == NamesOf(refs[..i])
      invariant Split(seen, Heads(resolved), unresolved)
      invariant forall k :: 0 <= k < |resolved| ==> Stands(a, refs, skills, resolved[k])
      invariant forall k :: 0 <= k < |unresolved| ==> Missing(a, refs, skills, unresolved[k])
    {
      var ref := refs[i];
      assert refs[..i + 1] == refs[..i] + [ref];
      assert NamesOf(refs[..i + 1]) == NamesOf(refs[..i]) + if ref.name != "" then {ref.name} else {};
      if ref.name != "" && ref.name !in seen {
        FirstSeen(refs, i);
        SplitMore(seen, Heads(resolved), unresolved, ref.name);
        seen := seen + {ref.name};
        var r := ResolveOne(a, refs, i, skills);
        if r.None? {
          unresolved := unresolved + [ref.name];
        } else {
          HeadsAppend(resolved, r.value);
          resolved := resolved + [r.value];
        }
      }
    }
    assert refs[..|refs|] == refs;
    ghost var found := resolved;
    resolved := SortBy(resolved, (r: Resolved) => r.name);
    SplitSorted(NamesOf(refs), found, resolved, unresolved);
  }

  lemma NothingSplit()
    ensures Split({}, Heads([]), [])
  {
  }

  lemma FirstSeen(refs: seq<SkillRef>, i: nat)
    requires i < |refs| && refs[i].name != "" && refs[i].name !in NamesOf(refs[..i])
    ensures FirstOfName(refs, i)
  {
    forall k | 0 <= k < i ensures refs[k].name == "" || refs[k].name in NamesOf(refs[..i]) {
      assert refs[..i][k] == refs[k];
    }
  }

  lemma SplitSorted(seen: set<string>, found: seq<Resolved>, sorted: seq<Resolved>, unresolved: seq<string>)
    requires Split(seen, Heads(found), unresolved) && multiset(sorted) == multiset(found)
    requires forall i, j :: 0 <= i < j < |sorted| ==> Leq(sorted[i].name, sorted[j].name)
    ensures Split(seen, Heads(sorted), unresolved) && SortedNames(Heads(sorted))
    ensures forall i :: 0 <= i < |sorted| ==> sorted[i] in found
  {
    hide Leq;
    forall i, j | 0 <= i < j < |found| ensures found[i] != found[j] {
      assert Heads(found)[i] != Heads(found)[j];
    }
    SameItems(found, sorted);
    HeadsSame(found, sorted);
    forall i, j | 0 <= i < j < |sorted| ensures Heads(sorted)[i] != Heads(sorted)[j] {
      var k :| 0 <= k < |found| && found[k] == sorted[i];
      var l :| 0 <= l < |found| && found[l] == sorted[j];
      assert k != l && Heads(found)[k] != Heads(found)[l];
    }
  }

  lemma HeadsSame(a: seq<Resolved>, b: seq<Resolved>)
    requires forall i :: 0 <= i < |a| ==> a[i] in b
    requires forall i :: 0 <= i < |b| ==> b[i] in a
    ensures forall n :: n in Heads(a) <==> n in Heads(b)
  {
    forall n ensures n in Heads(a) <==> n in Heads(b) {
      if n in Heads(a) {
        var i :| 0 <= i < |a| && Heads(a)[i] == n;
        var j :| 0 <= j < |b| && b[j] == a[i];
        assert Heads(b)[j] == n;
      }
      if n in Heads(b) {
        var j :| 0 <= j < |b| && Heads(b)[j] == n;
        var i :| 0 <= i < |a| && a[i] == b[j];
        assert Heads(a)[i] == n;
      }
    }
  }
}
