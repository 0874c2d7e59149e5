/** Evaluation cohorts: a registered protocol assigns each trajectory to at most one of them. */
module Cohorts {
  import opened Wrappers

  type SessionKey = (string, string)

  /** A named cohort: projects, and sessions given as (project, session id). */
  datatype Cohort = Cohort(name: string, projects: seq<string>, sessions: seq<SessionKey>)

  /** The cohorts of a protocol in the order they are written; names are the keys of a mapping. */
  predicate Named(cs: seq<Cohort>) {
    forall i, j :: 0 <= i < j < |cs| ==> cs[i].name != cs[j].name
  }

  /** A cohort takes a session when it names the session or its project. */
  predicate Takes(c: Cohort, s: SessionKey) {
    s in c.sessions || s.0 in c.projects
  }

  /** Two cohorts contest a project or a session. */
  predicate Contest(a: Cohort, b: Cohort) {
    || (exists p :: p in a.projects && p in b.projects)
    || (exists s :: s in a.sessions && Takes(b, s))
    || (exists s :: s in b.sessions && Takes(a, s))
  }

  predicate Separate(cs: seq<Cohort>) {
    forall i, j :: 0 <= i < j < |cs| ==> !Contest(cs[i], cs[j])
  }

  // ---- the checks of `parse_protocol` ----------------------------------------------------------

  /** Assigning `keys` to `name`; none when one is already another cohort's. */
  method Assign<K(==)>(seen: map<K, string>, keys: seq<K>, name: string) returns (r: Option<map<K, string>>)
    ensures r.Some? <==> forall k :: k in keys && k in seen ==> seen[k] == name
    ensures r.Some? ==> r.value.Keys == seen.Keys + Members(keys)
    ensures r.Some? ==> forall k :: k in r.value ==> r.value[k] == if k in keys then name else seen[k]
  {
    var now := seen;
    for i := 0 to |keys|
      invariant now.Keys == seen.Keys + Members(keys[..i])
      invariant forall k :: k in now ==> now[k] == if k in keys[..i] then name else seen[k]
      invariant forall k :: k in keys[..i] && k in seen ==> seen[k] == name
    {
      if keys[i] in now && now[keys[i]] != name {
        return None;
      }
      assert keys[..i + 1] == keys[..i] + [keys[i]];
      now := now[keys[i] := name];
    }
    assert keys[..|keys|] == keys;
    r := Some(now);
  }

  /** `seen` holds exactly what the first n cohorts claim. */
  ghost predicate HoldsProjects(cs: seq<Cohort>, n: nat, seen: map<string, string>)
    requires n <= |cs|
  {
    && (forall i, p :: 0 <= i < n && p in cs[i].projects ==> p in seen && seen[p] == cs[i].name)
    && (forall p :: p in seen ==> exists i :: 0 <= i < n && p in cs[i].projects)
  }

  ghost predicate HoldsSessions(cs: seq<Cohort>, n: nat, seen: map<SessionKey, string>)
    requires n <= |cs|
  {
    && (forall i, s :: 0 <= i < n && s in cs[i].sessions ==> s in seen && seen[s] == cs[i].name)
    && (forall s :: s in seen ==> exists i :: 0 <= i < n && s in cs[i].sessions)
  }

  predicate Claims(seenP: map<string, string>, s: SessionKey, name: string) {
    s.0 in seenP ==> seenP[s.0] == name
  }

  /** A clash between cohort n's keys and those already seen is a contest. */
  lemma ProjectClash(cs: seq<Cohort>, n: nat, seen: map<string, string>, p: string)
    requires n < |cs| && Named(cs) && HoldsProjects(cs, n, seen) && p in cs[n].projects
    ensures p in seen && seen[p] != cs[n].name ==> !Separate(cs)
  {
    if p in seen && seen[p] != cs[n].name {
      var i :| 0 <= i < n && p in cs[i].projects;
      assert Contest(cs[i], cs[n]);
    }
  }

  lemma SessionClash(cs: seq<Cohort>, n: nat, seen: map<SessionKey, string>, s: SessionKey)
    requires n < |cs| && Named(cs) && HoldsSessions(cs, n, seen) && s in cs[n].sessions
    ensures s in seen && seen[s] != cs[n].name ==> !Separate(cs)
  {
    if s in seen && seen[s] != cs[n].name {
      var i :| 0 <= i < n && s in cs[i].sessions;
      assert Takes(cs[i], s) && Contest(cs[i], cs[n]);
    }
  }

  lemma CrossClash(cs: seq<Cohort>, seenP: map<string, string>, seenS: map<SessionKey, string>, s: SessionKey)
    requires HoldsProjects(cs, |cs|, seenP) && HoldsSessions(cs, |cs|, seenS) && s in seenS
    ensures !Claims(seenP, s, seenS[s]) ==> !Separate(cs)
  {
    if !Claims(seenP, s, seenS[s]) {
      var i :| 0 <= i < |cs| && s in cs[i].sessions;
      var j :| 0 <= j < |cs| && s.0 in cs[j].projects;
      assert i != j && Takes(cs[j], s) && Takes(cs[i], s);
      assert if i < j then Contest(cs[i], cs[j]) else Contest(cs[j], cs[i]);
    }
  }

  lemma NoClash(cs: seq<Cohort>, seenP: map<string, string>, seenS: map<SessionKey, string>)
    requires Named(cs) && HoldsProjects(cs, |cs|, seenP) && HoldsSessions(cs, |cs|, seenS)
    requires forall s :: s in seenS ==> Claims(seenP, s, seenS[s])
    ensures Separate(cs)
  {
    forall i, j | 0 <= i < j < |cs| ensures !Contest(cs[i], cs[j]) {
      assert cs[i].name != cs[j].name;
      forall p | p in cs[i].projects ensures p !in cs[j].projects {
        assert seenP[p] == cs[i].name;
      }
      forall s | s in cs[i].sessions ensures !Takes(cs[j], s) {
        assert seenS[s] == cs[i].name && Claims(seenP, s, seenS[s]);
      }
      forall s | s in cs[j].sessions ensures !Takes(cs[i], s) {
        assert seenS[s] == cs[j].name && Claims(seenP, s, seenS[s]);
      }
    }
  }

  lemma NothingHeld(cs: seq<Cohort>)
    ensures HoldsProjects(cs, 0, map[]) && HoldsSessions(cs, 0, map[])
  {
  }

  lemma ProjectsHeld(cs: seq<Cohort>, n: nat, seen: map<string, string>, now: map<string, string>)
    requires n < |cs| && HoldsProjects(cs, n, seen) && now.Keys == seen.Keys + Members(cs[n].projects)
    requires forall k :: k in cs[n].projects && k in seen ==> seen[k] == cs[n].name
    requires forall k :: k in now ==> now[k] == if k in cs[n].projects then cs[n].name else seen[k]
    ensures HoldsProjects(cs, n + 1, now)
  {
    forall i, p | 0 <= i < n + 1 && p in cs[i].projects
      ensures p in now && now[p] == cs[i].name
    {
      if i < n {
        assert p in seen && seen[p] == cs[i].name;
      } else {
        assert p in Members(cs[n].projects);
      }
    }
    forall p | p in now
      ensures exists i :: 0 <= i < n + 1 && p in cs[i].projects
    {
      if p in cs[n].projects {
      } else {
        var i :| 0 <= i < n && p in cs[i].projects;
      }
    }
  }

  lemma SessionsHeld(cs: seq<Cohort>, n: nat, seen: map<SessionKey, string>, now: map<SessionKey, string>)
    requires n < |cs| && HoldsSessions(cs, n, seen) && now.Keys == seen.Keys + Members(cs[n].sessions)
    requires forall k :: k in cs[n].sessions && k in seen ==> seen[k] == cs[n].name
    requires forall k :: k in now ==> now[k] == if k in cs[n].sessions then cs[n].name else seen[k]
    ensures HoldsSessions(cs, n + 1, now)
  {
    forall i, s | 0 <= i < n + 1 && s in cs[i].sessions
      ensures s in now && now[s] == cs[i].name
    {
      if i < n {
        assert s in seen && seen[s] == cs[i].name;
      } else {
        assert s in Members(cs[n].sessions);
      }
    }
    forall s | s in now
      ensures exists i :: 0 <= i < n + 1 && s in cs[i].sessions
    {
      if s in cs[n].sessions {
      } else {
        var i :| 0 <= i < n && s in cs[i].sessions;
      }
    }
  }

  /** The overlap checks of `parse_protocol`: a protocol is accepted exactly when no two of its
      cohorts contest a project or a session. */
  method ParseCohorts(cs: seq<Cohort>) returns (ok: bool)
    requires Named(cs)
    ensures ok <==> Separate(cs)
  {
    hide Separate, Named, Claims, HoldsProjects, HoldsSessions;
    NothingHeld(cs);
    var seenP: map<string, string> := map[];
    var seenS: map<SessionKey, string> := map[];
    for n := 0 to |cs|
      invariant HoldsProjects(cs, n, seenP) && HoldsSessions(cs, n, seenS)
    {
      var p := Assign(seenP, cs[n].projects, cs[n].name);
      if p.None? {
        var k :| k in cs[n].projects && k in seenP && seenP[k] != cs[n].name;
        ProjectClash(cs, n, seenP, k);
        return false;
      }
      var s := Assign(seenS, cs[n].sessions, cs[n].name);
      if s.None? {
        var k :| k in cs[n].sessions && k in seenS && seenS[k] != cs[n].name;
        SessionClash(cs, n, seenS, k);
        return false;
      }
      ProjectsHeld(cs, n, seenP, p.value);
      SessionsHeld(cs, n, seenS, s.value);
      seenP, seenS := p.value, s.value;
    }
    var rest := seenS.Keys;
    while rest != {}
      invariant rest <= seenS.Keys
      invariant forall s :: s in seenS && s !in rest ==> Claims(seenP, s, seenS[s])
      decreases rest
    {
      var s :| s in rest;
      if !Claims(seenP, s, seenS[s]) {
        CrossClash(cs, seenP, seenS, s);
        return false;
      }
      rest := rest - {s};
    }
    NoClash(cs, seenP, seenS);
    ok := true;
  }

  // ---- membership ------------------------------------------------------------------------------

  /** `cohort_of`: an explicit session assignment first, else the project's. */
  method CohortOf(cs: seq<Cohort>, s: SessionKey) returns (r: Option<string>)
    requires Named(cs) && Separate(cs)
    ensures r.Some? <==> exists i :: 0 <= i < |cs| && Takes(cs[i], s)
    ensures forall i :: 0 <= i < |cs| ==> (Takes(cs[i], s) <==> r == Some(cs[i].name))
  {
    for i := 0 to |cs|
      invariant forall j :: 0 <= j < i ==> s !in cs[j].sessions
    {
      if s in cs[i].sessions {
        OnlyOne(cs, i, s);
        return Some(cs[i].name);
      }
    }
    for i := 0 to |cs|
      invariant forall j :: 0 <= j < i ==> !Takes(cs[j], s)
    {
      if s.0 in cs[i].projects {
        OnlyOne(cs, i, s);
        return Some(cs[i].name);
      }
    }
    r := None;
  }

  /** In an accepted protocol no second cohort takes the same session. */
  lemma OnlyOne(cs: seq<Cohort>, i: nat, s: SessionKey)
    requires Separate(cs) && i < |cs| && Takes(cs[i], s)
    ensures forall j :: 0 <= j < |cs| && Takes(cs[j], s) ==> j == i
  {
    forall j | 0 <= j < |cs| && Takes(cs[j], s) ensures j == i {
      assert s.0 in cs[i].projects && s.0 in cs[j].projects ==> Contest(cs[i], cs[j]) && Contest(cs[j], cs[i]);
      assert s in cs[i].sessions ==> Contest(cs[i], cs[j]) && Contest(cs[j], cs[i]);
      assert s in cs[j].sessions ==> Contest(cs[i], cs[j]) && Contest(cs[j], cs[i]);
    }
  }

  /** The verdict does not depend on the order the cohorts are written in. */
  lemma OrderIsIrrelevant(cs: seq<Cohort>, ds: seq<Cohort>)
    requires Named(cs) && Named(ds) && (forall c :: c in cs <==> c in ds)
    ensures Separate(cs) <==> Separate(ds)
  {
    SeparateBySet(cs);
    SeparateBySet(ds);
  }

  lemma ContestIsSymmetric(a: Cohort, b: Cohort)
    ensures Contest(a, b) <==> Contest(b, a)
  {
  }

  lemma SeparateBySet(cs: seq<Cohort>)
    requires Named(cs)
    ensures Separate(cs) <==> forall a, b :: a in cs && b in cs && a.name != b.name ==> !Contest(a, b)
  {
    forall a, b | a in cs && b in cs && a.name != b.name ensures Separate(cs) ==> !Contest(a, b) {
      var i :| 0 <= i < |cs| && cs[i] == a;
      var j :| 0 <= j < |cs| && cs[j] == b;
      ContestIsSymmetric(a, b);
    }
    if !Separate(cs) {
      var i, j :| 0 <= i < j < |cs| && Contest(cs[i], cs[j]);
      assert cs[i] in cs && cs[j] in cs && cs[i].name != cs[j].name;
    }
  }
}
