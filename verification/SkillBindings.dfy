/** The skill bindings the operator keeps for an agent, one for each reference to a skill of its namespace. */
module SkillBindings {
  import opened Values
  import Refs = SkillRefs

  const PREFIX := "aw-binding-"
  const MAX_NAME := 200
  const MAX_AGENT := 180

  /** The first eight hexadecimal digits of a hash. */
  type Hash = f: string -> string | forall s :: |f(s)| == 8 witness (s => "00000000")

  function Trimmed(agent: string): string { if |agent| > MAX_AGENT then agent[..MAX_AGENT] else agent }

  predicate Fits(agent: string, skill: string) { |PREFIX| + |agent| + 1 + |skill| <= MAX_NAME }

  function BindingName(hash: Hash, agent: string, skill: string): (name: string)
    ensures |name| <= MAX_NAME
  {
    assert |hash(skill)| == 8;
    if Fits(agent, skill) then PREFIX + (agent + "-" + skill) else PREFIX + (Trimmed(agent) + "-" + hash(skill))
  }

  /** The plain name where it fits, else one of the cut agent name and the hash. */
  lemma NameReads(hash: Hash, agent: string, skill: string)
    ensures |agent| + |skill| <= 188 ==> BindingName(hash, agent, skill) == "aw-binding-" + agent + "-" + skill
    ensures |agent| + |skill| > 188 ==>
              BindingName(hash, agent, skill) == "aw-binding-" + (if |agent| <= 180 then agent else agent[..180]) + "-" + hash(skill)
  {
    Apart(PREFIX, agent, skill);
    Apart(PREFIX, Trimmed(agent), hash(skill));
  }

  lemma Apart(a: string, b: string, c: string)
    ensures a + (b + "-" + c) == a + b + "-" + c
  {
  }

  /** When two skills of one agent get one name: never when both plain names fit, on a hash collision when neither does,
      and otherwise when the short one happens to spell the other's hash. */
  lemma NamesCollideExactly(hash: Hash, agent: string, a: string, b: string)
    ensures BindingName(hash, agent, a) == BindingName(hash, agent, b)
       <==> if Fits(agent, a) && Fits(agent, b) then a == b
            else if !Fits(agent, a) && !Fits(agent, b) then hash(a) == hash(b)
            else if Fits(agent, a) then SpellsHash(hash, agent, a, b)
            else SpellsHash(hash, agent, b, a)
  {
    assert |hash(a)| == 8 && |hash(b)| == 8;
    SamePrefix(PREFIX, agent + "-" + a, agent + "-" + b);
    SamePrefix(PREFIX, Trimmed(agent) + "-" + hash(a), Trimmed(agent) + "-" + hash(b));
    SamePrefix(PREFIX, agent + "-" + a, Trimmed(agent) + "-" + hash(b));
    SamePrefix(PREFIX, agent + "-" + b, Trimmed(agent) + "-" + hash(a));
    SamePrefix(agent + "-", a, b);
    SamePrefix(Trimmed(agent) + "-", hash(a), hash(b));
    SamePrefix(agent + "-", a, hash(b));
    SamePrefix(agent + "-", b, hash(a));
  }

  predicate SpellsHash(hash: Hash, agent: string, short: string, long: string) {
    if |agent| <= MAX_AGENT then short == hash(long)
    else agent + "-" + short == Trimmed(agent) + "-" + hash(long)
  }

  lemma SamePrefix(p: string, a: string, b: string)
    ensures p + a == p + b <==> a == b
  {
    if p + a == p + b {
      assert (p + a)[|p|..] == a && (p + b)[|p|..] == b;
    }
  }

  /** What stands before and after the separator: agent and skill, or where these do not fit the cut agent name and the
      skill's hash. */
  function Head(agent: string, skill: string): string { if Fits(agent, skill) then agent else Trimmed(agent) }

  function Tail(hash: Hash, agent: string, skill: string): string { if Fits(agent, skill) then skill else hash(skill) }

  /** One head continues the other, and the tail of the shorter takes up what is left. */
  ghost predicate Continues(agent: string, skill: string, other: string, otherSkill: string) {
    exists z :: Continued(agent, skill, other, otherSkill, z)
  }

  predicate Continued(agent: string, skill: string, other: string, otherSkill: string, z: string) {
    other == agent + "-" + z && skill == z + "-" + otherSkill
  }

  ghost predicate Meet(hash: Hash, x: string, s: string, y: string, t: string) {
    var headX, tailX, headY, tailY := Head(x, s), Tail(hash, x, s), Head(y, t), Tail(hash, y, t);
    (headX == headY && tailX == tailY) || Continues(headX, tailX, headY, tailY) || Continues(headY, tailY, headX, tailX)
  }

  /** Any two names meet exactly when heads and tails agree or one head continues the other: agents alike in their first
      180 characters share hashed names, and the separator may be part of an agent's name or of a skill's. */
  lemma NamesMeetAcrossAgents(hash: Hash, x: string, s: string, y: string, t: string)
    ensures BindingName(hash, x, s) == BindingName(hash, y, t) <==> Meet(hash, x, s, y, t)
  {
    hide Trimmed, Fits;
    MeetOn(Head(x, s), Tail(hash, x, s), Head(y, t), Tail(hash, y, t));
    hide Continues;
  }

  lemma MeetOn(x: string, s: string, y: string, t: string)
    ensures PREFIX + (x + "-" + s) == PREFIX + (y + "-" + t)
       <==> (x == y && s == t) || Continues(x, s, y, t) || Continues(y, t, x, s)
  {
    hide Continues;
    SamePrefix(PREFIX, x + "-" + s, y + "-" + t);
    if x + "-" + s == y + "-" + t {
      if |x| == |y| {
        SameLength(x, s, y, t);
        SamePrefix(x + "-", s, t);
      } else if |x| < |y| {
        MeetingNames(x, s, y, t);
      } else {
        MeetingNames(y, t, x, s);
      }
    }
    if Continues(x, s, y, t) { ContinuedMeet(x, s, y, t); }
    if Continues(y, t, x, s) { ContinuedMeet(y, t, x, s); }
  }

  lemma SameLength(x: string, s: string, y: string, t: string)
    requires |x| == |y| && x + "-" + s == y + "-" + t
    ensures x == y
  {
    assert x == (x + "-" + s)[..|x|] && y == (y + "-" + t)[..|y|];
  }

  lemma MeetingNames(x: string, s: string, y: string, t: string)
    requires |x| < |y| && x + "-" + s == y + "-" + t
    ensures Continues(x, s, y, t)
  {
    var all, z := x + "-" + s, y[|x| + 1..];
    assert y == all[..|y|] && x == all[..|x|] && all[|x|] == '-';
    assert y == x + "-" + z;
    assert s == all[|x| + 1..] && z + "-" + t == (y + "-" + t)[|x| + 1..];
    assert Continued(x, s, y, t, z);
  }

  lemma ContinuedMeet(x: string, s: string, y: string, t: string)
    requires Continues(x, s, y, t)
    ensures x + "-" + s == y + "-" + t
  {
    var z :| Continued(x, s, y, t, z);
    assert x + "-" + (z + "-" + t) == (x + "-" + z) + "-" + t;
  }

  // ----- the pass -----

  /** `agent` is the managing label, empty when there is none; `owner` the controlling workstation, if any. */
  datatype Binding = Binding(agent: string, ref: Refs.SkillRef, subject: string, owner: Option<string>)

  /** The last reference of each name counts. */
  function Desired(refs: seq<Refs.SkillRef>): map<string, Refs.SkillRef> {
    if |refs| == 0 then map[] else Desired(refs[..|refs| - 1])[refs[|refs| - 1].name := refs[|refs| - 1]]
  }

  /** Position `k` holds the last reference of its name. */
  ghost predicate LastOfName(refs: seq<Refs.SkillRef>, n: string, k: int) {
    0 <= k < |refs| && refs[k].name == n && forall i :: k < i < |refs| ==> refs[i].name != n
  }

  lemma {:induction false} DesiredAre(refs: seq<Refs.SkillRef>, local: set<string>, n: string)
    ensures n in Wanted(refs, local) <==> n in local && exists k :: LastOfName(refs, n, k)
    ensures forall k :: LastOfName(refs, n, k) ==> n in Desired(refs) && Desired(refs)[n] == refs[k]
  {
    if |refs| > 0 {
      var front, r := refs[..|refs| - 1], refs[|refs| - 1];
      DesiredAre(front, local, n);
      if r.name == n {
        assert LastOfName(refs, n, |front|);
      } else {
        assert forall k :: LastOfName(refs, n, k) <==> LastOfName(front, n, k);
      }
    }
  }

  function Wanted(refs: seq<Refs.SkillRef>, local: set<string>): set<string> { Desired(refs).Keys * local }

  function Managed(bindings: map<string, Binding>, agent: string): set<string> {
    set n | n in bindings && bindings[n].agent == agent
  }

  function For(agent: string, ref: Refs.SkillRef): Binding { Binding(agent, ref, agent, Some(agent)) }

  function Names(hash: Hash, agent: string, skills: set<string>): set<string> {
    set s | s in skills :: BindingName(hash, agent, s)
  }

  /** No binding the pass has to write belongs to another workstation. */
  ghost predicate Free(hash: Hash, agent: string, wanted: set<string>, bindings: map<string, Binding>) {
    forall s :: s in wanted && BindingName(hash, agent, s) in bindings ==>
      bindings[BindingName(hash, agent, s)].owner in {None, Some(agent)}
  }

  ghost predicate NamesApart(hash: Hash, agent: string, wanted: set<string>) {
    forall s, t :: s in wanted && t in wanted && s != t ==> BindingName(hash, agent, s) != BindingName(hash, agent, t)
  }

  /** The binding of that name carries the reference of a skill of that name. */
  ghost predicate Carries(hash: Hash, agent: string, desired: map<string, Refs.SkillRef>, skills: set<string>,
      bindings: map<string, Binding>, n: string)
  {
    exists s :: s in skills && s in desired && BindingName(hash, agent, s) == n && n in bindings && bindings[n] == For(agent, desired[s])
  }

  /** The agent's bindings are exactly one for each name of a wanted skill, with the reference of such a skill; bindings of
      other names and other agents are as before. */
  ghost predicate Settled(hash: Hash, agent: string, desired: map<string, Refs.SkillRef>, wanted: set<string>,
      before: map<string, Binding>, after: map<string, Binding>)
  {
    && (forall n :: n in Names(hash, agent, wanted) ==> Carries(hash, agent, desired, wanted, after, n))
    && Managed(after, agent) <= Names(hash, agent, wanted)
    && (forall n :: n in before && n !in Managed(before, agent) && n !in Names(hash, agent, wanted) ==> n in after)
    && (forall n :: n in after && n !in Names(hash, agent, wanted) ==> n in before && after[n] == before[n])
  }

  /** With the names apart that is one binding for each wanted skill, with its own reference. */
  lemma OneForEach(hash: Hash, agent: string, desired: map<string, Refs.SkillRef>, wanted: set<string>,
      before: map<string, Binding>, after: map<string, Binding>, s: string)
    requires Settled(hash, agent, desired, wanted, before, after) && NamesApart(hash, agent, wanted)
    requires s in wanted && s in desired
    ensures BindingName(hash, agent, s) in after
    ensures after[BindingName(hash, agent, s)] == Binding(agent, desired[s], agent, Some(agent))
  {
    hide BindingName, Names, Managed;
    NameIn(hash, agent, wanted, s);
    var n := BindingName(hash, agent, s);
    var t :| t in wanted && t in desired && BindingName(hash, agent, t) == n && n in after && after[n] == For(agent, desired[t]);
  }

  class Namespace {
    var bindings: map<string, Binding>

    constructor (bindings: map<string, Binding>)
      ensures this.bindings == bindings
    {
      this.bindings := bindings;
    }

    /** Creates the binding or brings it to its desired contents; one controlled by another workstation is an error. */
    method CreateOrUpdate(name: string, agent: string, ref: Refs.SkillRef) returns (ok: bool, changed: bool)
      modifies this
      ensures ok <==> name in old(bindings) ==> old(bindings)[name].owner in {None, Some(agent)}
      ensures bindings == if ok then old(bindings)[name := Binding(agent, ref, agent, Some(agent))] else old(bindings)
      ensures changed <==> bindings != old(bindings)
    {
      ok, changed := true, false;
      if name in bindings && bindings[name].owner.Some? && bindings[name].owner.value != agent {
        ok := false;
      } else if name !in bindings || bindings[name] != For(agent, ref) {
        bindings, changed := bindings[name := For(agent, ref)], true;
      }
    }

    /** One pass over the references, in the order the map iterations happen to take. */
    method ReconcileSkillRefs(hash: Hash, agent: string, refs: seq<Refs.SkillRef>, local: set<string>) returns (ok: bool)
      modifies this
      ensures ok <==> Free(hash, agent, Wanted(refs, local), old(bindings))
      ensures ok ==> Settled(hash, agent, Desired(refs), Wanted(refs, local), old(bindings), bindings)
      ensures ok ==> forall n :: n !in Names(hash, agent, Wanted(refs, local)) ==>
                (n in bindings <==> n in old(bindings) && old(bindings)[n].agent != agent)
                && (n in bindings ==> bindings[n] == old(bindings)[n])
    {
      hide BindingName, Progress, Free, Managed, Settled, Names;
      var desired: map<string, Refs.SkillRef> := map[];
      for i := 0 to |refs|
        invariant desired == Desired(refs[..i])
      {
        assert refs[..i + 1][..i] == refs[..i];
        desired := desired[refs[i].name := refs[i]];
      }
      assert refs[..|refs|] == refs;
      var existing := Managed(bindings, agent);
      ghost var before, wanted := bindings, Wanted(refs, local);
      var todo := desired.Keys * local;
      ghost var done: set<string> := {};
      NoProgress(hash, agent, desired, before);
      while todo != {}
        invariant todo + done == wanted && todo !! done
        invariant Progress(hash, agent, desired, done, before, bindings, existing)
        decreases todo
      {
        var skill :| skill in todo;
        var name := BindingName(hash, agent, skill);
        ProgressMore(hash, agent, desired, wanted, done, before, bindings, existing, skill);
        var written, changed := CreateOrUpdate(name, agent, desired[skill]);
        if !written { return false; }
        existing := existing - {name};
        todo, done := todo - {skill}, done + {skill};
      }
      assert done == wanted;
      AllProgress(hash, agent, desired, wanted, before, bindings, existing);
      bindings := bindings - existing;
      SettledElsewhere(hash, agent, desired, wanted, before, bindings);
      ok := true;
    }
  }

  lemma SettledElsewhere(hash: Hash, agent: string, desired: map<string, Refs.SkillRef>, wanted: set<string>,
      before: map<string, Binding>, after: map<string, Binding>)
    requires Settled(hash, agent, desired, wanted, before, after)
    ensures forall n :: n !in Names(hash, agent, wanted) ==>
              (n in after <==> n in before && before[n].agent != agent) && (n in after ==> after[n] == before[n])
  {
    hide Names, Carries;
  }

  /** The bindings once those of some skills are written; of two skills with one name the last written counts. */
  ghost predicate Applied(hash: Hash, agent: string, desired: map<string, Refs.SkillRef>, done: set<string>,
      before: map<string, Binding>, now: map<string, Binding>)
  {
    && now.Keys == before.Keys + Names(hash, agent, done)
    && (forall n :: n in Names(hash, agent, done) ==> Carries(hash, agent, desired, done, now, n))
    && (forall n :: n in before && n !in Names(hash, agent, done) ==> now[n] == before[n])
  }

  /** Where a pass stands. */
  ghost predicate Progress(hash: Hash, agent: string, desired: map<string, Refs.SkillRef>, done: set<string>,
      before: map<string, Binding>, now: map<string, Binding>, existing: set<string>)
  {
    && Applied(hash, agent, desired, done, before, now)
    && existing == Managed(before, agent) - Names(hash, agent, done)
    && Free(hash, agent, done, before)
  }

  lemma NoProgress(hash: Hash, agent: string, desired: map<string, Refs.SkillRef>, before: map<string, Binding>)
    ensures Progress(hash, agent, desired, {}, before, before, Managed(before, agent))
  {
    hide BindingName, Managed;
    assert Names(hash, agent, {}) == {};
  }

  lemma NamesMore(hash: Hash, agent: string, done: set<string>, skill: string)
    ensures Names(hash, agent, done + {skill}) == Names(hash, agent, done) + {BindingName(hash, agent, skill)}
  {
    hide BindingName;
  }

  lemma NameIn(hash: Hash, agent: string, skills: set<string>, s: string)
    requires s in skills
    ensures BindingName(hash, agent, s) in Names(hash, agent, skills)
  {
  }

  lemma ProgressMore(hash: Hash, agent: string, desired: map<string, Refs.SkillRef>, wanted: set<string>, done: set<string>,
      before: map<string, Binding>, now: map<string, Binding>, existing: set<string>, skill: string)
    requires Progress(hash, agent, desired, done, before, now, existing) && skill in wanted && skill in desired
    ensures var name := BindingName(hash, agent, skill);
            if name in now ==> now[name].owner in {None, Some(agent)}
            then Progress(hash, agent, desired, done + {skill}, before, now[name := For(agent, desired[skill])], existing - {name})
            else !Free(hash, agent, wanted, before)
  {
    hide BindingName, Managed, Applied, Free, Names, For;
    OwnedSince(hash, agent, desired, wanted, done, before, now, skill);
    AppliedMore(hash, agent, desired, done, before, now, skill);
    NamesMore(hash, agent, done, skill);
  }

  /** Writing a skill's binding succeeds just when nobody else controlled it before the pass. */
  lemma OwnedSince(hash: Hash, agent: string, desired: map<string, Refs.SkillRef>, wanted: set<string>, done: set<string>,
      before: map<string, Binding>, now: map<string, Binding>, skill: string)
    requires Applied(hash, agent, desired, done, before, now) && Free(hash, agent, done, before) && skill in wanted
    ensures var name := BindingName(hash, agent, skill);
            if name in now ==> now[name].owner in {None, Some(agent)} then Free(hash, agent, done + {skill}, before)
            else !Free(hash, agent, wanted, before)
  {
    hide BindingName, Names;
    var name := BindingName(hash, agent, skill);
    if name in Names(hash, agent, done) {
      var s := SkillOf(hash, agent, done, name);
    }
  }

  lemma SkillOf(hash: Hash, agent: string, skills: set<string>, n: string) returns (s: string)
    requires n in Names(hash, agent, skills)
    ensures s in skills && BindingName(hash, agent, s) == n
  {
    s :| s in skills && BindingName(hash, agent, s) == n;
  }

  lemma AppliedMore(hash: Hash, agent: string, desired: map<string, Refs.SkillRef>, done: set<string>,
      before: map<string, Binding>, now: map<string, Binding>, skill: string)
    requires Applied(hash, agent, desired, done, before, now) && skill in desired
    ensures Applied(hash, agent, desired, done + {skill}, before, now[BindingName(hash, agent, skill) := For(agent, desired[skill])])
  {
    hide BindingName, Names, For, Carries;
    NamesMore(hash, agent, done, skill);
    var name := BindingName(hash, agent, skill);
    var after := now[name := For(agent, desired[skill])];
    forall n | n in Names(hash, agent, done + {skill}) ensures Carries(hash, agent, desired, done + {skill}, after, n) {
      CarriesMore(hash, agent, desired, done, now, skill, n);
    }
  }

  lemma CarriesMore(hash: Hash, agent: string, desired: map<string, Refs.SkillRef>, done: set<string>,
      now: map<string, Binding>, skill: string, n: string)
    requires skill in desired
    requires n == BindingName(hash, agent, skill) || Carries(hash, agent, desired, done, now, n)
    ensures Carries(hash, agent, desired, done + {skill}, now[BindingName(hash, agent, skill) := For(agent, desired[skill])], n)
  {
    hide BindingName, For;
    if n != BindingName(hash, agent, skill) {
      var s :| s in done && s in desired && BindingName(hash, agent, s) == n && n in now && now[n] == For(agent, desired[s]);
      assert s in done + {skill};
    }
  }

  lemma AllProgress(hash: Hash, agent: string, desired: map<string, Refs.SkillRef>, wanted: set<string>,
      before: map<string, Binding>, now: map<string, Binding>, existing: set<string>)
    requires Progress(hash, agent, desired, wanted, before, now, existing)
    ensures Free(hash, agent, wanted, before) && Settled(hash, agent, desired, wanted, before, now - existing)
  {
    hide BindingName, Managed, Names, Carries;
    OnlyOursLeft(agent, Names(hash, agent, wanted), before, now, now - existing);
    forall n | n in Names(hash, agent, wanted) ensures Carries(hash, agent, desired, wanted, now - existing, n) {
      CarriesStill(hash, agent, desired, wanted, now, existing, n);
    }
  }

  lemma CarriesStill(hash: Hash, agent: string, desired: map<string, Refs.SkillRef>, wanted: set<string>,
      now: map<string, Binding>, existing: set<string>, n: string)
    requires Carries(hash, agent, desired, wanted, now, n) && n !in existing
    ensures Carries(hash, agent, desired, wanted, now - existing, n)
  {
    hide BindingName, For;
  }

  lemma OnlyOursLeft(agent: string, names: set<string>, before: map<string, Binding>, now: map<string, Binding>, after: map<string, Binding>)
    requires now.Keys == before.Keys + names && forall n :: n in before && n !in names ==> now[n] == before[n]
    requires after == now - (Managed(before, agent) - names)
    ensures Managed(after, agent) <= names
  {
  }

  /** After a pass that succeeded a second one, over the same references, succeeds; with the names apart it changes
      nothing. */
  lemma SecondPass(hash: Hash, agent: string, desired: map<string, Refs.SkillRef>, wanted: set<string>,
      before: map<string, Binding>, once: map<string, Binding>, twice: map<string, Binding>)
    requires wanted <= desired.Keys && Settled(hash, agent, desired, wanted, before, once)
    ensures Free(hash, agent, wanted, once)
    ensures NamesApart(hash, agent, wanted) && Settled(hash, agent, desired, wanted, once, twice) ==> twice == once
  {
    hide BindingName, Names, Carries, NamesApart;
    forall s | s in wanted && BindingName(hash, agent, s) in once
      ensures once[BindingName(hash, agent, s)].owner == Some(agent)
    {
      NameIn(hash, agent, wanted, s);
      CarriedOwner(hash, agent, desired, wanted, once, BindingName(hash, agent, s));
    }
    if NamesApart(hash, agent, wanted) && Settled(hash, agent, desired, wanted, once, twice) {
      forall n ensures (n in once <==> n in twice) && (n in once ==> once[n] == twice[n]) {
        if n in Names(hash, agent, wanted) {
          var s := SkillOf(hash, agent, wanted, n);
          OneForEach(hash, agent, desired, wanted, before, once, s);
          OneForEach(hash, agent, desired, wanted, once, twice, s);
        }
      }
    }
  }

  lemma CarriedOwner(hash: Hash, agent: string, desired: map<string, Refs.SkillRef>, skills: set<string>,
      bindings: map<string, Binding>, n: string)
    requires Carries(hash, agent, desired, skills, bindings, n)
    ensures n in bindings && bindings[n].owner == Some(agent)
  {
    hide BindingName;
  }

  /** Where names of two agents meet, hashed or not, every pass of the second fails for as long as the first holds the
      binding. */
  lemma SecondAgentBlocked(hash: Hash, x: string, s: string, y: string, t: string, desired: map<string, Refs.SkillRef>,
      wantedX: set<string>, wantedY: set<string>, before: map<string, Binding>, bindings: map<string, Binding>)
    requires x != y && Meet(hash, x, s, y, t)
    requires s in wantedX && t in wantedY && Settled(hash, x, desired, wantedX, before, bindings)
    ensures !Free(hash, y, wantedY, bindings)
  {
    hide BindingName, Names, Carries, Meet;
    NamesMeetAcrossAgents(hash, x, s, y, t);
    NameIn(hash, x, wantedX, s);
    CarriedOwner(hash, x, desired, wantedX, bindings, BindingName(hash, x, s));
  }
}
