/**
 * The records an Owners package notification reads, and the values its load
 * phase derives from them: the mail-to list (owners plus the primary owner)
 * and the path rules grouped by repository, as libphutil's `mgroup` builds
 * them.
 */
module OwnersData {
  import opened PhpArrays

  /** A PHID, Phabricator's string identifier of an object. */
  type Phid = string

  /** The package the notification is about, with the user who acted on it. */
  datatype Package = Package(
    id: nat,
    phid: Phid,
    name: string,
    description: string,
    primaryOwnerPhid: Phid,
    auditingEnabled: bool,
    actorPhid: Phid)

  /** One owner of the package. */
  datatype Owner = Owner(userPhid: Phid)

  /** One path the package covers, in one repository. */
  datatype PathRule = PathRule(repositoryPhid: Phid, path: string)

  /** The resolved display name and URI of a PHID. */
  datatype Handle = Handle(name: string, uri: string)

  /** The distinct paths of one repository, in first-seen order. */
  datatype RepoPaths = RepoPaths(repositoryPhid: Phid, paths: seq<string>)

  /** `mpull($owners, 'getUserPHID')`: one PHID per owner, in owner order. */
  function UserPhids(owners: seq<Owner>): (r: seq<Phid>)
    ensures |r| == |owners|
    ensures forall o :: o in owners ==> o.userPhid in r
    ensures forall p :: p in r ==> exists o :: o in owners && o.userPhid == p
  {
    var r := seq(|owners|, i requires 0 <= i < |owners| => owners[i].userPhid);
    assert forall o :: o in owners ==> o.userPhid in r by {
      forall o | o in owners ensures o.userPhid in r {
        var i :| 0 <= i < |owners| && owners[i] == o;
        assert r[i] == o.userPhid;
      }
    }
    assert forall p :: p in r ==> exists o :: o in owners && o.userPhid == p by {
      forall p | p in r ensures exists o :: o in owners && o.userPhid == p {
        var i :| 0 <= i < |r| && r[i] == p;
        assert owners[i] in owners;
      }
    }
    r
  }

  /**
   * The mail-to list: the owner PHIDs in order, and the primary owner at the
   * end if no owner is the primary owner.
   */
  function MailTo(ownerPhids: seq<Phid>, primary: Phid): (r: seq<Phid>)
    ensures |ownerPhids| <= |r| && r[..|ownerPhids|] == ownerPhids
    ensures primary in r
    ensures |r| == if primary in ownerPhids then |ownerPhids| else |ownerPhids| + 1
    ensures forall p :: p in r ==> p in ownerPhids || p == primary
  {
    if primary in ownerPhids then ownerPhids else ownerPhids + [primary]
  }

  /** Adding the primary owner a second time changes nothing. */
  lemma MailToIdempotent(ownerPhids: seq<Phid>, primary: Phid)
    ensures MailTo(MailTo(ownerPhids, primary), primary) == MailTo(ownerPhids, primary)
  {
  }

  /** Adding the primary owner never creates a duplicate. */
  lemma MailToKeepsDistinct(ownerPhids: seq<Phid>, primary: Phid)
    requires Distinct(ownerPhids)
    ensures Distinct(MailTo(ownerPhids, primary))
  {
    var r := MailTo(ownerPhids, primary);
    if primary !in ownerPhids {
      forall i, j | 0 <= i < j < |r| ensures r[i] != r[j] {
        if j == |ownerPhids| {
          assert r[i] == ownerPhids[i];
        }
      }
    }
  }

  /** The repository of every rule, in rule order. */
  function Repos(rules: seq<PathRule>): seq<Phid>
  {
    seq(|rules|, i requires 0 <= i < |rules| => rules[i].repositoryPhid)
  }

  /** The paths of the rules for `repo`, in rule order, repetitions kept. */
  function PathsIn(rules: seq<PathRule>, repo: Phid): seq<string>
    decreases |rules|
  {
    if |rules| == 0 then []
    else
      var last := rules[|rules| - 1];
      PathsIn(rules[..|rules| - 1], repo) + (if last.repositoryPhid == repo then [last.path] else [])
  }

  /** The repositories of grouped paths, in group order (`array_keys`). */
  function Keys(groups: seq<RepoPaths>): seq<Phid>
  {
    seq(|groups|, i requires 0 <= i < |groups| => groups[i].repositoryPhid)
  }

  /** The paths grouped under `repo`, or none if there is no such group. */
  function PathsOf(groups: seq<RepoPaths>, repo: Phid): seq<string>
    decreases |groups|
  {
    if |groups| == 0 then []
    else if groups[0].repositoryPhid == repo then groups[0].paths
    else PathsOf(groups[1..], repo)
  }

  /**
   * Files one rule: into the group of its repository (a path already there
   * stays where it is), or into a new group at the end.
   */
  function AddRule(groups: seq<RepoPaths>, rule: PathRule): seq<RepoPaths>
    decreases |groups|
  {
    if |groups| == 0 then [RepoPaths(rule.repositoryPhid, [rule.path])]
    else if groups[0].repositoryPhid == rule.repositoryPhid then
      [RepoPaths(rule.repositoryPhid, AddNew(groups[0].paths, rule.path))] + groups[1..]
    else [groups[0]] + AddRule(groups[1..], rule)
  }

  /** `mgroup($paths, 'getRepositoryPHID', 'getPath')`: the rules filed one by one. */
  function GroupPaths(rules: seq<PathRule>): (r: seq<RepoPaths>)
    ensures Distinct(Keys(r))
    ensures |r| <= |rules|
    decreases |rules|
  {
    if |rules| == 0 then []
    else
      var g := GroupPaths(rules[..|rules| - 1]);
      var rule := rules[|rules| - 1];
      AddRuleKeys(g, rule);
      AddNewKeepsDistinct(Keys(g), rule.repositoryPhid);
      assert |Keys(AddRule(g, rule))| <= |Keys(g)| + 1;
      AddRule(g, rule)
  }

  /** Filing a rule adds its repository to the keys unless it is there already. */
  lemma {:induction false} AddRuleKeys(groups: seq<RepoPaths>, rule: PathRule)
    ensures Keys(AddRule(groups, rule)) == AddNew(Keys(groups), rule.repositoryPhid)
    decreases |groups|
  {
    var repo := rule.repositoryPhid;
    if |groups| == 0 {
      assert Keys(AddRule(groups, rule)) == [repo];
    } else if groups[0].repositoryPhid == repo {
      assert Keys(AddRule(groups, rule)) == Keys(groups);
      assert Keys(groups)[0] == repo;
    } else {
      AddRuleKeys(groups[1..], rule);
      assert Keys(groups) == [groups[0].repositoryPhid] + Keys(groups[1..]);
      assert Keys(AddRule(groups, rule)) == [groups[0].repositoryPhid] + Keys(AddRule(groups[1..], rule));
    }
  }

  /** Filing a rule adds its path to its repository's group and leaves every other group alone. */
  lemma {:induction false} AddRuleLookup(groups: seq<RepoPaths>, rule: PathRule, repo: Phid)
    ensures PathsOf(AddRule(groups, rule), repo)
         == if repo == rule.repositoryPhid then AddNew(PathsOf(groups, repo), rule.path)
            else PathsOf(groups, repo)
    decreases |groups|
  {
    if |groups| > 0 && groups[0].repositoryPhid != rule.repositoryPhid {
      AddRuleLookup(groups[1..], rule, repo);
      assert AddRule(groups, rule)[1..] == AddRule(groups[1..], rule);
    }
  }

  /**
   * What `mgroup` computes: the repositories of the rules, each once, in
   * first-seen order; under each, the paths of its rules, each once, in
   * first-seen order.
   */
  lemma {:induction false} GroupPathsSpec(rules: seq<PathRule>)
    ensures Keys(GroupPaths(rules)) == Dedup(Repos(rules))
    ensures forall repo :: PathsOf(GroupPaths(rules), repo) == Dedup(PathsIn(rules, repo))
    decreases |rules|
  {
    if |rules| > 0 {
      var init, last := rules[..|rules| - 1], rules[|rules| - 1];
      GroupPathsSpec(init);
      var g := GroupPaths(init);
      AddRuleKeys(g, last);
      assert Repos(rules)[..|rules| - 1] == Repos(init);
      assert GroupPaths(rules) == AddRule(g, last);
      forall repo ensures PathsOf(GroupPaths(rules), repo) == Dedup(PathsIn(rules, repo)) {
        AddRuleLookup(g, last, repo);
        assert PathsOf(g, repo) == Dedup(PathsIn(init, repo));
        if repo == last.repositoryPhid {
          var before := PathsIn(init, repo);
          assert PathsIn(rules, repo) == before + [last.path];
          assert (before + [last.path])[..|before|] == before;
          assert Dedup(before + [last.path]) == AddNew(Dedup(before), last.path);
          assert PathsOf(AddRule(g, last), repo) == AddNew(Dedup(before), last.path);
        } else {
          assert PathsIn(rules, repo) == PathsIn(init, repo) + [];
          assert PathsIn(init, repo) + [] == PathsIn(init, repo);
        }
      }
    }
  }

  /** With distinct keys, looking a group's repository up finds that group. */
  lemma {:induction false} PathsOfAt(groups: seq<RepoPaths>, i: nat)
    requires i < |groups| && Distinct(Keys(groups))
    ensures PathsOf(groups, groups[i].repositoryPhid) == groups[i].paths
    decreases i
  {
    if i > 0 {
      assert Keys(groups)[0] != Keys(groups)[i];
      assert Keys(groups[1..]) == Keys(groups)[1..];
      PathsOfAt(groups[1..], i - 1);
    }
  }

  /** A path is among the paths of `repo`'s rules exactly when a rule maps `repo` to it. */
  lemma {:induction false} PathsInMembers(rules: seq<PathRule>, repo: Phid, path: string)
    ensures path in PathsIn(rules, repo) <==> PathRule(repo, path) in rules
    decreases |rules|
  {
    if |rules| > 0 {
      var init := rules[..|rules| - 1];
      PathsInMembers(init, repo, path);
      assert rules == init + [rules[|rules| - 1]];
    }
  }

  /**
   * The grouped paths, position by position: the groups are the rules'
   * repositories once each in first-seen order, each group holds the
   * distinct paths of its repository's rules in first-seen order, and a
   * path sits under a repository exactly when some rule puts it there.
   */
  lemma GroupedPaths(rules: seq<PathRule>)
    ensures Keys(GroupPaths(rules)) == Dedup(Repos(rules))
    ensures forall i :: 0 <= i < |GroupPaths(rules)| ==>
      GroupPaths(rules)[i].paths == Dedup(PathsIn(rules, GroupPaths(rules)[i].repositoryPhid))
    ensures forall repo, path :: path in PathsOf(GroupPaths(rules), repo) <==> PathRule(repo, path) in rules
  {
    var g := GroupPaths(rules);
    GroupPathsSpec(rules);
    forall i | 0 <= i < |g|
      ensures g[i].paths == Dedup(PathsIn(rules, g[i].repositoryPhid))
    {
      PathsOfAt(g, i);
    }
    forall repo, path ensures path in PathsOf(g, repo) <==> PathRule(repo, path) in rules {
      PathsInMembers(rules, repo, path);
    }
  }

  /** The PHIDs whose handles the load phase asks for (`array_mergev` then the resolver's keys). */
  function HandleIds(mailTo: seq<Phid>, actor: Phid, repos: seq<Phid>): (r: set<Phid>)
    ensures forall p :: p in r <==> p in mailTo || p == actor || p in repos
  {
    (set p | p in mailTo) + {actor} + (set p | p in repos)
  }

  /** The grouped repositories are exactly the repositories the rules name. */
  lemma GroupedRepoSet(rules: seq<PathRule>)
    ensures (set p | p in Keys(GroupPaths(rules))) == (set r | r in rules :: r.repositoryPhid)
  {
    GroupPathsSpec(rules);
    var keys := Keys(GroupPaths(rules));
    forall p | p in keys ensures exists r :: r in rules && r.repositoryPhid == p {
      var i :| 0 <= i < |rules| && Repos(rules)[i] == p;
      assert rules[i] in rules;
    }
    forall r | r in rules ensures r.repositoryPhid in keys {
      var i :| 0 <= i < |rules| && rules[i] == r;
      assert Repos(rules)[i] == r.repositoryPhid;
    }
  }

  /** The mail-to list holds exactly the owners and the primary owner. */
  lemma MailToSet(owners: seq<Owner>, primary: Phid)
    ensures (set p | p in MailTo(UserPhids(owners), primary)) == (set o | o in owners :: o.userPhid) + {primary}
  {
    var ownerPhids := UserPhids(owners);
    var mailTo := MailTo(ownerPhids, primary);
    forall p | p in ownerPhids ensures exists o :: o in owners && o.userPhid == p {
      var i :| 0 <= i < |owners| && ownerPhids[i] == p;
      assert owners[i] in owners;
    }
    forall o | o in owners ensures o.userPhid in ownerPhids {
      var i :| 0 <= i < |owners| && owners[i] == o;
      assert ownerPhids[i] == o.userPhid;
    }
    assert forall p :: p in ownerPhids ==> p in mailTo by {
      assert mailTo[..|ownerPhids|] == ownerPhids;
    }
  }

  /**
   * The handles asked for after loading are exactly the owners, the primary
   * owner, the actor and every repository that a path rule names.
   */
  lemma LoadedHandleIds(owners: seq<Owner>, primary: Phid, actor: Phid, rules: seq<PathRule>)
    ensures HandleIds(MailTo(UserPhids(owners), primary), actor, Keys(GroupPaths(rules)))
         == (set o | o in owners :: o.userPhid) + {primary, actor} + (set r | r in rules :: r.repositoryPhid)
  {
    GroupedRepoSet(rules);
    MailToSet(owners, primary);
  }
}
