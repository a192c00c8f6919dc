/** Which profiles of an organization a run works on, and the composite key
    their credentials are stored under. */
module Selection {
  import opened Types
  import Glob

  /** The `--profiles` value used when the flag is absent. */
  const DefaultPattern := "*/*"

  /** `<organization>/<profile>`: both the string the selector is matched
      against and the profile's key in the credentials file. */
  function Key(org: string, name: string): (k: string)
    ensures |k| == |org| + 1 + |name|
    ensures k[..|org|] == org && k[|org|] == '/' && k[|org| + 1..] == name
  {
    org + "/" + name
  }

  /** Within one organization, distinct profile names give distinct keys. */
  lemma KeyInjectiveInName(org: string, a: string, b: string)
    requires Key(org, a) == Key(org, b)
    ensures a == b
  {
    assert a == Key(org, a)[|org| + 1..];
  }

  /** In a key whose organization has no `/`, the first `/` ends the organization. */
  lemma FirstSlash(org: string, name: string)
    requires '/' !in org
    ensures forall i :: 0 <= i < |org| ==> Key(org, name)[i] != '/'
    ensures Key(org, name)[|org|] == '/'
  {
    var k := Key(org, name);
    forall i | 0 <= i < |org|
      ensures k[i] != '/'
    {
      assert k[i] == org[i];
    }
  }

  /** Across organizations whose names have no `/`, keys never collide. */
  lemma KeyInjective(o1: string, a: string, o2: string, b: string)
    requires '/' !in o1 && '/' !in o2
    requires Key(o1, a) == Key(o2, b)
    ensures o1 == o2 && a == b
  {
    FirstSlash(o1, a);
    FirstSlash(o2, b);
    assert |o1| == |o2|;
    KeyInjectiveInName(o1, a, b);
  }

  /** The profiles of `profiles` whose key under `org` the pattern matches, in order. */
  function SelectFrom(pattern: string, org: string, profiles: seq<Profile>): (r: seq<Profile>)
    ensures |r| <= |profiles|
    ensures forall p :: p in r <==> p in profiles && Glob.Matches(pattern, Key(org, p.name))
  {
    if |profiles| == 0 then []
    else
      var rest := SelectFrom(pattern, org, profiles[1..]);
      assert forall p :: p in profiles <==> p == profiles[0] || p in profiles[1..];
      if Glob.Matches(pattern, Key(org, profiles[0].name)) then [profiles[0]] + rest else rest
  }

  /** The profiles of `org` a run with selector `pattern` processes. */
  function Select(pattern: string, org: Organization): (r: seq<Profile>)
    ensures |r| <= |org.profiles|
    ensures forall p :: p in r <==> p in org.profiles && Glob.Matches(pattern, Key(org.name, p.name))
  {
    SelectFrom(pattern, org.name, org.profiles)
  }

  /** Selection keeps the configured order: selecting from a concatenation is
      concatenating the selections of its parts. */
  lemma {:induction false} SelectFromAppend(pattern: string, org: string, a: seq<Profile>, b: seq<Profile>)
    ensures SelectFrom(pattern, org, a + b) == SelectFrom(pattern, org, a) + SelectFrom(pattern, org, b)
  {
    if |a| == 0 {
      assert a + b == b;
    } else {
      assert (a + b)[0] == a[0];
      assert (a + b)[1..] == a[1..] + b;
      SelectFromAppend(pattern, org, a[1..], b);
    }
  }

  /** A selector that spells out one key keeps exactly the profiles of that name. */
  lemma ExactSelector(org: Organization, name: string)
    requires Glob.IsLiteral(Key(org.name, name))
    ensures forall p :: p in Select(Key(org.name, name), org) <==> p in org.profiles && p.name == name
  {
    forall p | p in org.profiles
      ensures Glob.Matches(Key(org.name, name), Key(org.name, p.name)) <==> p.name == name
    {
      Glob.LiteralMatchesItself(Key(org.name, name), Key(org.name, p.name));
      if Key(org.name, name) == Key(org.name, p.name) {
        KeyInjectiveInName(org.name, name, p.name);
      }
    }
  }

  /** No two profiles of the sequence share a name. */
  ghost predicate UniqueNames(ps: seq<Profile>)
  {
    forall i, j :: 0 <= i < j < |ps| ==> ps[i].name != ps[j].name
  }

  /** Selecting from profiles with unique names keeps the names unique. */
  lemma {:induction false} SelectKeepsUniqueNames(pattern: string, org: string, profiles: seq<Profile>)
    requires UniqueNames(profiles)
    ensures UniqueNames(SelectFrom(pattern, org, profiles))
  {
    if |profiles| > 0 {
      var rest := SelectFrom(pattern, org, profiles[1..]);
      assert UniqueNames(profiles[1..]) by {
        forall i, j | 0 <= i < j < |profiles[1..]|
          ensures profiles[1..][i].name != profiles[1..][j].name
        {
          assert profiles[1..][i] == profiles[i + 1] && profiles[1..][j] == profiles[j + 1];
        }
      }
      SelectKeepsUniqueNames(pattern, org, profiles[1..]);
      if Glob.Matches(pattern, Key(org, profiles[0].name)) {
        var r := [profiles[0]] + rest;
        forall i, j | 0 <= i < j < |r|
          ensures r[i].name != r[j].name
        {
          if i == 0 {
            assert r[j] == rest[j - 1] && rest[j - 1] in rest;
            assert rest[j - 1] in profiles[1..];
            var b :| 0 <= b < |profiles[1..]| && profiles[1..][b] == rest[j - 1];
            assert profiles[b + 1] == r[j];
          } else {
            assert r[i] == rest[i - 1] && r[j] == rest[j - 1];
          }
        }
      }
    }
  }

  /** Without `--profiles`, every profile of every organization is processed. */
  lemma {:induction false} DefaultSelectsAll(org: string, profiles: seq<Profile>)
    ensures SelectFrom(DefaultPattern, org, profiles) == profiles
  {
    if |profiles| > 0 {
      var k := Key(org, profiles[0].name);
      assert k[|org|] == '/';
      Glob.DefaultPatternMatches(k);
      DefaultSelectsAll(org, profiles[1..]);
      assert profiles == [profiles[0]] + profiles[1..];
    }
  }

  /** A selector naming an organization followed by slash-star keeps all of its profiles and none of
      another organization whose name has no `/`. */
  lemma OrgPrefixSelector(org: Organization, selector: string)
    requires Glob.IsLiteral(selector) && '/' !in selector && '/' !in org.name
    ensures selector == org.name ==> Select(selector + "/*", org) == org.profiles
    ensures selector != org.name ==> Select(selector + "/*", org) == []
  {
    assert Glob.IsLiteral(selector + "/") by {
      forall i | 0 <= i < |selector + "/"|
        ensures (selector + "/")[i] != Glob.Star && (selector + "/")[i] != Glob.Any
      {
        if i < |selector| {
          assert (selector + "/")[i] == selector[i];
        }
      }
    }
    assert selector + "/*" == (selector + "/") + [Glob.Star];
    forall p | p in org.profiles
      ensures Glob.Matches(selector + "/*", Key(org.name, p.name)) <==> selector == org.name
    {
      var k := Key(org.name, p.name);
      var lit := selector + "/";
      Glob.LiteralThenStar(lit, k);
      if selector == org.name {
        assert k[..|lit|] == lit;
      }
      if |lit| <= |k| && k[..|lit|] == lit {
        FirstSlash(org.name, p.name);
        assert k[|selector|] == lit[|selector|] == '/';
        forall i | 0 <= i < |selector|
          ensures k[i] == selector[i]
        {
          assert k[i] == k[..|lit|][i] == lit[i];
        }
        assert |selector| == |org.name|;
        assert selector == k[..|org.name|];
      }
    }
    SelectAllOrNone(selector + "/*", org.name, org.profiles, selector == org.name);
  }

  /** Organization "acme" with profile "dev": the selector made of "acme", a
      slash and a star picks "dev"; the same selector for "other" picks nothing. */
  lemma AcmeSelection()
    ensures var acme := Organization("acme", "user", [Profile("dev", "aws-dev", "Admin")]);
            && Select("acme/*", acme) == acme.profiles
            && Select("other/*", acme) == []
  {
    var acme := Organization("acme", "user", [Profile("dev", "aws-dev", "Admin")]);
    assert "acme" + "/*" == "acme/*";
    assert "other" + "/*" == "other/*";
    OrgPrefixSelector(acme, "acme");
    OrgPrefixSelector(acme, "other");
  }

  lemma {:induction false} SelectAllOrNone(pattern: string, org: string, profiles: seq<Profile>, all: bool)
    requires forall p :: p in profiles ==> (Glob.Matches(pattern, Key(org, p.name)) <==> all)
    ensures SelectFrom(pattern, org, profiles) == if all then profiles else []
  {
    if |profiles| > 0 {
      assert profiles[0] in profiles;
      assert forall p :: p in profiles[1..] ==> p in profiles;
      SelectAllOrNone(pattern, org, profiles[1..], all);
      assert profiles == [profiles[0]] + profiles[1..];
    }
  }
}
