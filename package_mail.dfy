/**
 * The notification mail for an Owners package: the load phase that fixes
 * the recipients, the grouped paths and the handles to resolve; the six body
 * sections; the subject lines and threading strings; and the `needSend`
 * guard in front of it all.
 */
module OwnersMail {
  import opened PhpStrings
  import opened PhpArrays
  import opened OwnersData

  /** The concrete notifications; each fixes the verb and whether it starts a thread. */
  datatype Kind = Created | Changed | Deleted {
    /** `getVerb()`. */
    function Verb(): string
    {
      match this
      case Created => "Created"
      case Changed => "Changed"
      case Deleted => "Deleted"
    }

    /** `isNewThread()`. */
    predicate IsNewThread()
    {
      Created?
    }
  }

  /** Each kind has its own verb, and only the creation mail starts a new thread. */
  lemma KindsAreDistinguished(a: Kind, b: Kind)
    ensures a.Verb() == b.Verb() <==> a == b
    ensures a.IsNewThread() <==> a == Created
  {
  }

  /** The mail template handed to the reply handler for fan-out. */
  datatype MailTemplate = MailTemplate(
    subject: string,
    varySubject: string,
    from: Phid,
    threadId: string,
    isNewThread: bool,
    threadTopic: string,
    relatedPhid: Phid,
    isBulk: bool,
    body: string)

  /**
   * What storage returns for the package: its owners, its path rules, and
   * the handle resolver, which answers for every PHID it is given.
   */
  datatype Store = Store(owners: seq<Owner>, rules: seq<PathRule>, resolve: Phid -> Handle)

  /**
   * The environment: the configured subject prefix, `getProductionURI`, and
   * the configured reply handler's `multiplexMail`.
   */
  datatype Env = Env(
    subjectPrefix: string,
    productionUri: string -> string,
    multiplex: (MailTemplate, seq<(Phid, Handle)>) -> seq<MailTemplate>)

  /** The subject line, `trim("{$prefix} {$package_title}")`. */
  function Subject(prefix: string, title: string): (r: string)
    ensures Unpadded(r) && |r| <= |prefix| + 1 + |title|
  {
    Trim(prefix + " " + title)
  }

  /** The vary-subject line, `trim("{$prefix} [{$verb}] {$package_title}")`. */
  function VarySubject(prefix: string, verb: string, title: string): (r: string)
    ensures Unpadded(r) && |r| <= |prefix| + |verb| + 4 + |title|
  {
    Trim(prefix + " [" + verb + "] " + title)
  }

  /** With a prefix and a title that have nothing to strip, the subject is the two joined by a space. */
  lemma SubjectWithPrefix(prefix: string, title: string)
    requires |prefix| > 0 && |title| > 0 && Unpadded(prefix) && Unpadded(title)
    ensures Subject(prefix, title) == prefix + " " + title
  {
    var s := prefix + " " + title;
    assert s[0] == prefix[0] && s[|s| - 1] == title[|title| - 1];
  }

  /** With an empty prefix, the subject is the title itself. */
  lemma SubjectWithoutPrefix(title: string)
    requires Unpadded(title)
    ensures Subject("", title) == title
  {
    TrimOfSpaceThenUnpadded(title);
  }

  /** With a prefix and a title that have nothing to strip, the vary-subject is `prefix [verb] title`. */
  lemma VarySubjectWithPrefix(prefix: string, verb: string, title: string)
    requires |prefix| > 0 && |title| > 0 && Unpadded(prefix) && Unpadded(title)
    ensures VarySubject(prefix, verb, title) == prefix + " [" + verb + "] " + title
  {
    var s := prefix + " [" + verb + "] " + title;
    assert s[0] == prefix[0] && s[|s| - 1] == title[|title| - 1];
  }

  /** With an empty prefix, the vary-subject is `[verb] title`. */
  lemma VarySubjectWithoutPrefix(verb: string, title: string)
    requires |title| > 0 && Unpadded(title)
    ensures VarySubject("", verb, title) == "[" + verb + "] " + title
  {
    var rest := "[" + verb + "] " + title;
    assert Unpadded(rest) by {
      assert rest[0] == '[' && rest[|rest| - 1] == title[|title| - 1];
    }
    assert "" + " [" + verb + "] " + title == " " + rest;
    TrimOfSpaceThenUnpadded(rest);
  }

  /** One space in front of a string with nothing to strip is all that `trim` removes. */
  lemma TrimOfSpaceThenUnpadded(s: string)
    requires Unpadded(s)
    ensures Trim(" " + s) == s
  {
    TrimSkipsLeadingSpace(' ', s);
  }

  /** `getMailThreading()`: the thread id and the thread topic of a package. */
  function MailThreading(packagePhid: Phid): (r: (string, string))
    ensures |r.0| == |r.1| == 8 + |packagePhid|
    ensures r.0[..8] == "package-" && r.0[8..] == packagePhid
    ensures r.1[..8] == "package " && r.1[8..] == packagePhid
  {
    ("package-" + packagePhid, "package " + packagePhid)
  }

  /**
   * Two packages share a thread id, and a thread topic, exactly when they are
   * the same package; a thread id is never a thread topic.
   */
  lemma ThreadingIdentifiesPackage(a: Phid, b: Phid)
    ensures MailThreading(a).0 == MailThreading(b).0 <==> a == b
    ensures MailThreading(a).1 == MailThreading(b).1 <==> a == b
    ensures MailThreading(a).0 != MailThreading(b).1
  {
    var (ida, topica) := MailThreading(a);
    var (idb, topicb) := MailThreading(b);
    assert ida[8..] == a && idb[8..] == b;
    assert topica[8..] == a && topicb[8..] == b;
    assert ida[7] == '-' && topicb[7] == ' ';
  }

  /** The site path of the package's detail page. */
  function PackageDetailPath(id: nat): string
  {
    "/owners/package/" + Decimal(id) + "/"
  }

  /** The path lines under a repository line, each indented by four spaces. */
  function IndentedPaths(paths: seq<string>): seq<string>
  {
    seq(|paths|, i requires 0 <= i < |paths| => "    " + paths[i])
  }

  /** The lines of one repository's block in the paths section. */
  function RepoSubSectionLines(repo: Handle, paths: seq<string>, uri: string -> string): seq<string>
  {
    ["  In repository " + repo.name + " - " + uri(repo.uri)] + IndentedPaths(paths)
  }

  /** Every group's repository has a handle. */
  predicate Resolved(handles: map<Phid, Handle>, groups: seq<RepoPaths>)
  {
    forall i :: 0 <= i < |groups| ==> groups[i].repositoryPhid in handles
  }

  /** The block of lines of each repository, in group order. */
  function RepoBlocks(handles: map<Phid, Handle>, groups: seq<RepoPaths>, uri: string -> string): (r: seq<seq<string>>)
    requires Resolved(handles, groups)
    ensures |r| == |groups|
    ensures forall i :: 0 <= i < |r| ==> |r[i]| > 0
  {
    seq(|groups|, i requires 0 <= i < |groups| =>
      RepoSubSectionLines(handles[groups[i].repositoryPhid], groups[i].paths, uri))
  }

  /** The lines of the paths section: `PATHS`, then every repository's block. */
  function PathsSectionLines(handles: map<Phid, Handle>, groups: seq<RepoPaths>, uri: string -> string): seq<string>
    requires Resolved(handles, groups)
  {
    ["PATHS"] + Flatten(RepoBlocks(handles, groups, uri))
  }

  /** `array_filter` keeps a truthy first slot. */
  lemma ArrayFilterKeep(x: Option<string>, xs: seq<Option<string>>)
    requires Truthy(x)
    ensures ArrayFilter([x] + xs) == [x.value] + ArrayFilter(xs)
  {
    assert ([x] + xs)[1..] == xs;
  }

  /** `array_filter` drops a falsy first slot. */
  lemma ArrayFilterDrop(x: Option<string>, xs: seq<Option<string>>)
    requires !Truthy(x)
    ensures ArrayFilter([x] + xs) == ArrayFilter(xs)
  {
    assert ([x] + xs)[1..] == xs;
  }

  /**
   * `array_filter` on the six body slots: the five fixed sections stay, and
   * the owners slot stays exactly when it holds a section.
   */
  lemma ArrayFilterSections(summary: string, description: string, primary: string,
                            owners: Option<string>, auditing: string, paths: string)
    requires Truthy(Some(summary)) && Truthy(Some(description)) && Truthy(Some(primary))
    requires Truthy(Some(auditing)) && Truthy(Some(paths))
    requires owners.Some? ==> Truthy(owners)
    ensures ArrayFilter([Some(summary), Some(description), Some(primary), owners, Some(auditing), Some(paths)])
         == [summary, description, primary] + (if owners.Some? then [owners.value] else []) + [auditing, paths]
  {
    var empty: seq<Option<string>> := [];
    var s5 := [Some(paths)] + empty;
    var s4 := [Some(auditing)] + s5;
    var s3 := [owners] + s4;
    var s2 := [Some(primary)] + s3;
    var s1 := [Some(description)] + s2;
    var s0 := [Some(summary)] + s1;
    assert s0 == [Some(summary), Some(description), Some(primary), owners, Some(auditing), Some(paths)];
    var o := if owners.Some? then [owners.value] else [];
    assert ArrayFilter(s4) == [auditing, paths] by {
      ArrayFilterKeep(Some(paths), empty);
      ArrayFilterKeep(Some(auditing), s5);
    }
    assert ArrayFilter(s3) == o + [auditing, paths] by {
      if owners.Some? {
        ArrayFilterKeep(owners, s4);
      } else {
        ArrayFilterDrop(owners, s4);
      }
    }
    assert ArrayFilter(s0) == [summary] + ([description] + ([primary] + ArrayFilter(s3))) by {
      ArrayFilterKeep(Some(primary), s3);
      ArrayFilterKeep(Some(description), s2);
      ArrayFilterKeep(Some(summary), s1);
    }
    assert [summary] + ([description] + ([primary] + (o + [auditing, paths])))
        == [summary, description, primary] + o + [auditing, paths];
  }

  /** Four parts joined. */
  lemma JoinFour(sep: string, a: string, b: string, c: string, d: string)
    ensures Join(sep, [a, b, c, d]) == a + sep + b + sep + c + sep + d
  {
    JoinCons(sep, c, [d]);
    JoinCons(sep, b, [c, d]);
    JoinCons(sep, a, [b, c, d]);
    assert [a, b, c, d] == [a] + [b, c, d] && [b, c, d] == [b] + [c, d] && [c, d] == [c] + [d];
  }

  /** The four summary lines joined: the action line, a blank line, the detail header and the indented link. */
  lemma SummaryLines(action: string, link: string)
    ensures Join("\n", [action, "", "PACKAGE DETAIL", "  " + link]) == action + "\n\nPACKAGE DETAIL\n  " + link
  {
    var detail := "  " + link;
    JoinCons("\n", "PACKAGE DETAIL", [detail]);
    assert Join("\n", ["PACKAGE DETAIL", detail]) == "PACKAGE DETAIL\n  " + link;
    JoinCons("\n", "", ["PACKAGE DETAIL", detail]);
    assert ["", "PACKAGE DETAIL", detail] == [""] + ["PACKAGE DETAIL", detail];
    assert Join("\n", ["", "PACKAGE DETAIL", detail]) == "\nPACKAGE DETAIL\n  " + link;
    JoinCons("\n", action, ["", "PACKAGE DETAIL", detail]);
    assert [action, "", "PACKAGE DETAIL", detail] == [action] + ["", "PACKAGE DETAIL", detail];
  }

  /** Five parts joined. */
  lemma JoinFive(sep: string, a: string, b: string, c: string, d: string, e: string)
    ensures Join(sep, [a, b, c, d, e]) == a + sep + b + sep + c + sep + d + sep + e
  {
    JoinFour(sep, b, c, d, e);
    JoinCons(sep, a, [b, c, d, e]);
    assert [a, b, c, d, e] == [a] + [b, c, d, e];
  }

  /** Six parts joined. */
  lemma JoinSix(sep: string, a: string, b: string, c: string, d: string, e: string, f: string)
    ensures Join(sep, [a, b, c, d, e, f]) == a + sep + b + sep + c + sep + d + sep + e + sep + f
  {
    JoinFive(sep, b, c, d, e, f);
    JoinCons(sep, a, [b, c, d, e, f]);
    assert [a, b, c, d, e, f] == [a] + [b, c, d, e, f];
  }

  /** A header followed by anything joins to at least the header. */
  lemma JoinStartsWithHeader(sep: string, header: string, rest: seq<string>)
    ensures |Join(sep, [header] + rest)| >= |header|
  {
    if |rest| > 0 {
      JoinAppend(sep, [header], rest);
    }
  }

  /**
   * The mail of one package notification. The load phase fills `owners`,
   * `mailTo`, `paths` and `handles`; the render methods read them.
   */
  class PackageMail {
    const package: Package
    const kind: Kind
    /** The concrete notification's answer to `needSend()`; the base class answers true. */
    const needSend: bool
    const env: Env

    var handles: map<Phid, Handle>
    var owners: seq<Owner>
    var paths: seq<RepoPaths>
    var mailTo: seq<Phid>

    constructor (package: Package, kind: Kind, needSend: bool, env: Env)
      ensures this.package == package && this.kind == kind && this.needSend == needSend
      ensures this.env == env
      ensures handles == map[] && owners == [] && paths == [] && mailTo == []
    {
      this.package := package;
      this.kind := kind;
      this.needSend := needSend;
      this.env := env;
      handles := map[];
      owners := [];
      paths := [];
      mailTo := [];
    }

    /**
     * The state `loadData` leaves behind, which the render methods rely on:
     * mail-to is derived from the owners, and the handles cover mail-to, the
     * actor and every grouped repository. It does not hold after the
     * constructor, whose empty mail-to lacks the primary owner.
     */
    ghost predicate Ready()
      reads this
    {
      && mailTo == MailTo(UserPhids(owners), package.primaryOwnerPhid)
      && handles.Keys == HandleIds(mailTo, package.actorPhid, Keys(paths))
    }

    /** The fields hold what `loadData` computes from `store`. */
    ghost predicate Loaded(store: Store)
      reads this
    {
      && owners == store.owners
      && mailTo == MailTo(UserPhids(store.owners), package.primaryOwnerPhid)
      && paths == GroupPaths(store.rules)
      && handles == map p | p in HandleIds(mailTo, package.actorPhid, Keys(paths)) :: store.resolve(p)
    }

    /** `loadData()`: owners, mail-to, grouped paths, then one batch of handles. */
    method LoadData(store: Store)
      modifies this
      ensures Loaded(store) && Ready()
    {
      owners := store.owners;
      var ownerPhids := UserPhids(owners);
      var primary := package.primaryOwnerPhid;
      var list := ownerPhids;
      if primary !in ownerPhids {
        list := list + [primary];
      }
      mailTo := list;
      paths := GroupPaths(store.rules);
      var ids := HandleIds(mailTo, package.actorPhid, Keys(paths));
      handles := map p | p in ids :: store.resolve(p);
    }

    /** Every PHID the render methods look up has a handle after loading. */
    lemma LookupsResolve()
      requires Ready()
      ensures package.actorPhid in handles && package.primaryOwnerPhid in handles
      ensures forall p :: p in mailTo ==> p in handles
      ensures forall o :: o in owners ==> o.userPhid in handles
      ensures Resolved(handles, paths)
    {
      var ownerPhids := UserPhids(owners);
      forall o | o in owners ensures o.userPhid in handles {
        var i :| 0 <= i < |owners| && owners[i] == o;
        assert mailTo[..|ownerPhids|][i] == o.userPhid;
      }
      forall i | 0 <= i < |paths| ensures paths[i].repositoryPhid in handles {
        assert Keys(paths)[i] == paths[i].repositoryPhid;
      }
    }

    /** `renderPackageTitle()`. */
    function RenderPackageTitle(): (r: string)
      ensures r == package.name
    {
      package.name
    }

    /** The summary section: the action line, a blank line, and the link to the package. */
    function SummaryText(): string
      reads this
      requires Ready()
    {
      LookupsResolve();
      handles[package.actorPhid].name + " " + Lower(kind.Verb()) + " " + RenderPackageTitle() + "."
        + "\n\nPACKAGE DETAIL\n  " + env.productionUri(PackageDetailPath(package.id))
    }

    /** `renderSummarySection()`: four lines joined by newlines. */
    method RenderSummarySection() returns (r: string)
      requires Ready()
      ensures r == SummaryText()
    {
      LookupsResolve();
      var action := handles[package.actorPhid].name + " " + Lower(kind.Verb()) + " " + RenderPackageTitle() + ".";
      var link := env.productionUri(PackageDetailPath(package.id));
      var section: seq<string> := [];
      section := section + [action];
      section := section + [""];
      section := section + ["PACKAGE DETAIL"];
      section := section + ["  " + link];
      assert section == [action, "", "PACKAGE DETAIL", "  " + link];
      SummaryLines(action, link);
      r := Join("\n", section);
    }

    /** `renderDescriptionSection()`: the header, then the description indented. */
    function RenderDescriptionSection(): (r: string)
      ensures |r| >= 22 && r[..22] == "PACKAGE DESCRIPTION\n  " && r[22..] == package.description
    {
      "PACKAGE DESCRIPTION\n" + "  " + package.description
    }

    /** `renderPrimaryOwnerSection()`: the header, then the primary owner's name indented. */
    function RenderPrimaryOwnerSection(): (r: string)
      reads this
      requires Ready()
      ensures |r| >= 16 && r[..16] == "PRIMARY OWNER\n  "
      ensures package.primaryOwnerPhid in handles && r[16..] == handles[package.primaryOwnerPhid].name
    {
      LookupsResolve();
      "PRIMARY OWNER\n" + "  " + handles[package.primaryOwnerPhid].name
    }

    /** The owners' names: `array_select_keys` of the handles by owner PHID, then each name. */
    function OwnerNames(): (r: seq<string>)
      reads this
      requires Ready()
      ensures |r| == |Dedup(UserPhids(owners))|
      ensures forall i :: 0 <= i < |r| ==>
        Dedup(UserPhids(owners))[i] in handles && r[i] == handles[Dedup(UserPhids(owners))[i]].name
    {
      var ownerPhids := UserPhids(owners);
      var selected := SelectKeys(handles, ownerPhids);
      LookupsResolve();
      SelectKeysAllPresent(handles, ownerPhids);
      assert forall i :: 0 <= i < |selected| ==> PairKeys(selected)[i] == selected[i].0;
      seq(|selected|, i requires 0 <= i < |selected| => selected[i].1.name)
    }

    /** With no owner listed twice, the owner names are the owners' names in owner order. */
    lemma OwnerNamesInOwnerOrder()
      requires Ready() && Distinct(UserPhids(owners))
      ensures |OwnerNames()| == |owners|
      ensures forall i :: 0 <= i < |owners| ==>
        owners[i].userPhid in handles && OwnerNames()[i] == handles[owners[i].userPhid].name
    {
      var ownerPhids := UserPhids(owners);
      DedupOfDistinct(ownerPhids);
      forall i | 0 <= i < |owners|
        ensures owners[i].userPhid in handles && OwnerNames()[i] == handles[owners[i].userPhid].name
      {
        assert ownerPhids[i] == owners[i].userPhid;
      }
    }

    /** `renderOwnersSection()`: `null` with no owners, otherwise the header and the names joined by commas. */
    function RenderOwnersSection(): (r: Option<string>)
      reads this
      requires Ready()
      ensures r.None? <==> owners == []
      ensures r.Some? ==> |r.value| >= 9 && r.value[..9] == "OWNERS\n  " && r.value[9..] == Join(", ", OwnerNames())
    {
      if owners == [] then None else Some("OWNERS\n" + "  " + Join(", ", OwnerNames()))
    }

    /** `renderAuditingEnabledSection()`: the header, then `Enabled` or `Disabled`. */
    function RenderAuditingEnabledSection(): (r: string)
      ensures |r| >= 26 && r[..26] == "AUDITING ENABLED STATUS\n  "
      ensures r[26..] == "Enabled" <==> package.auditingEnabled
      ensures r[26..] == "Disabled" <==> !package.auditingEnabled
    {
      "AUDITING ENABLED STATUS\n" + "  " + (if package.auditingEnabled then "Enabled" else "Disabled")
    }

    /** `renderRepoSubSection()`: the repository line, then one line per path. */
    method RenderRepoSubSection(repositoryPhid: Phid, repoPaths: seq<string>) returns (r: string)
      requires repositoryPhid in handles
      ensures r == Join("\n", RepoSubSectionLines(handles[repositoryPhid], repoPaths, env.productionUri))
    {
      var repo := handles[repositoryPhid];
      var section := ["  In repository " + repo.name + " - " + env.productionUri(repo.uri)];
      for i := 0 to |repoPaths|
        invariant |section| == i + 1
        invariant section[0] == "  In repository " + repo.name + " - " + env.productionUri(repo.uri)
        invariant forall k :: 0 <= k < i ==> section[k + 1] == "    " + repoPaths[k]
      {
        section := section + ["    " + repoPaths[i]];
      }
      assert section == RepoSubSectionLines(repo, repoPaths, env.productionUri);
      r := Join("\n", section);
    }

    /** The paths section as text. */
    function PathsSectionText(): string
      reads this
      requires Ready()
    {
      LookupsResolve();
      Join("\n", PathsSectionLines(handles, paths, env.productionUri))
    }

    /** `renderPathsSection()`: `PATHS`, then each repository's block, joined by newlines. */
    method RenderPathsSection() returns (r: string)
      requires Ready()
      ensures r == PathsSectionText()
    {
      LookupsResolve();
      ghost var blocks := RepoBlocks(handles, paths, env.productionUri);
      var section := ["PATHS"];
      for i := 0 to |paths|
        invariant section == ["PATHS"] + JoinEach("\n", blocks[..i])
      {
        var sub := RenderRepoSubSection(paths[i].repositoryPhid, paths[i].paths);
        JoinEachSnoc("\n", blocks, i);
        section := section + [sub];
      }
      assert blocks[..|paths|] == blocks;
      JoinUnderHeader("\n", "PATHS", blocks);
      r := Join("\n", section);
    }

    /**
     * After loading, the paths section has one block per repository of the
     * rules, in first-seen order, and each block lists that repository's
     * distinct rule paths in first-seen order.
     */
    lemma PathsSectionFromRules(store: Store)
      requires Loaded(store) && Ready()
      ensures Resolved(handles, paths)
      ensures |RepoBlocks(handles, paths, env.productionUri)| == |Dedup(Repos(store.rules))|
      ensures forall i :: 0 <= i < |paths| ==>
        var repo := Dedup(Repos(store.rules))[i];
        repo in handles
        && RepoBlocks(handles, paths, env.productionUri)[i]
           == RepoSubSectionLines(handles[repo], Dedup(PathsIn(store.rules, repo)), env.productionUri)
    {
      LookupsResolve();
      GroupedPaths(store.rules);
      forall i | 0 <= i < |paths|
        ensures Dedup(Repos(store.rules))[i] == paths[i].repositoryPhid
      {
        assert Keys(paths)[i] == paths[i].repositoryPhid;
      }
    }

    /** The six section slots in body order; the owners slot may be `null`. */
    function SectionSlots(): seq<Option<string>>
      reads this
      requires Ready()
    {
      [Some(SummaryText()), Some(RenderDescriptionSection()), Some(RenderPrimaryOwnerSection()),
       RenderOwnersSection(), Some(RenderAuditingEnabledSection()), Some(PathsSectionText())]
    }

    /**
     * The body sections: summary, description, primary owner, owners (only
     * when there are owners), auditing status, paths.
     */
    function Sections(): seq<string>
      reads this
      requires Ready()
    {
      [SummaryText(), RenderDescriptionSection(), RenderPrimaryOwnerSection()]
        + (if owners == [] then [] else [RenderOwnersSection().value])
        + [RenderAuditingEnabledSection(), PathsSectionText()]
    }

    /** `array_filter` on the slots drops exactly the missing owners section. */
    lemma SectionsAreFilteredSlots()
      requires Ready()
      ensures Sections() == ArrayFilter(SectionSlots())
    {
      LookupsResolve();
      var summary, description, primary := SummaryText(), RenderDescriptionSection(), RenderPrimaryOwnerSection();
      var o, auditing, pathsText := RenderOwnersSection(), RenderAuditingEnabledSection(), PathsSectionText();
      JoinStartsWithHeader("\n", "PATHS", Flatten(RepoBlocks(handles, paths, env.productionUri)));
      assert |pathsText| > 1;
      ArrayFilterSections(summary, description, primary, o, auditing, pathsText);
      assert Sections() == [summary, description, primary] + (if o.Some? then [o.value] else []) + [auditing, pathsText];
    }

    /** Joining the filtered slots joins the body sections. */
    lemma FilteredSlotsJoin()
      requires Ready()
      ensures Join("\n\n", ArrayFilter(SectionSlots())) == Join("\n\n", Sections())
    {
      SectionsAreFilteredSlots();
    }

    /** `renderBody()`: the six slots, `array_filter`, then joined by blank lines. */
    method RenderBody() returns (r: string)
      requires Ready()
      ensures r == Join("\n\n", Sections())
    {
      var summary := RenderSummarySection();
      var description := RenderDescriptionSection();
      var primary := RenderPrimaryOwnerSection();
      var ownersSection := RenderOwnersSection();
      var auditing := RenderAuditingEnabledSection();
      var pathsSection := RenderPathsSection();
      var body: seq<Option<string>> := [Some(summary), Some(description), Some(primary), ownersSection, Some(auditing), Some(pathsSection)];
      assert body == SectionSlots();
      FilteredSlotsJoin();
      r := Join("\n\n", ArrayFilter(body));
    }

    /** Without owners the body is the five other sections, one blank line between neighbours. */
    lemma BodyWithoutOwners()
      requires Ready() && owners == []
      ensures Join("\n\n", Sections())
           == SummaryText() + "\n\n" + RenderDescriptionSection() + "\n\n" + RenderPrimaryOwnerSection()
              + "\n\n" + RenderAuditingEnabledSection() + "\n\n" + PathsSectionText()
    {
      var s := Sections();
      JoinFive("\n\n", s[0], s[1], s[2], s[3], s[4]);
      assert s == [s[0], s[1], s[2], s[3], s[4]];
    }

    /** With owners the owners section sits between the primary owner and the auditing status. */
    lemma BodyWithOwners()
      requires Ready() && owners != []
      ensures Join("\n\n", Sections())
           == SummaryText() + "\n\n" + RenderDescriptionSection() + "\n\n" + RenderPrimaryOwnerSection()
              + "\n\n" + RenderOwnersSection().value + "\n\n" + RenderAuditingEnabledSection()
              + "\n\n" + PathsSectionText()
    {
      var s := Sections();
      JoinSix("\n\n", s[0], s[1], s[2], s[3], s[4], s[5]);
      assert s == [s[0], s[1], s[2], s[3], s[4], s[5]];
    }

    /** The recipients: `array_select_keys` of the handles by mail-to. */
    function Recipients(): (r: seq<(Phid, Handle)>)
      reads this
      requires Ready()
      ensures PairKeys(r) == Dedup(mailTo)
      ensures forall i :: 0 <= i < |r| ==> r[i].0 in handles && r[i].1 == handles[r[i].0]
    {
      LookupsResolve();
      SelectKeysAllPresent(handles, mailTo);
      SelectKeys(handles, mailTo)
    }

    /**
     * The recipients are mail-to, each once in first-seen order, with each
     * one's handle; when no owner is listed twice they are mail-to itself.
     */
    lemma RecipientsAreMailTo()
      requires Ready()
      ensures PairKeys(Recipients()) == Dedup(mailTo)
      ensures forall i :: 0 <= i < |Recipients()| ==> Recipients()[i].1 == handles[Recipients()[i].0]
      ensures Distinct(UserPhids(owners)) ==> PairKeys(Recipients()) == mailTo
    {
      LookupsResolve();
      SelectKeysAllPresent(handles, mailTo);
      if Distinct(UserPhids(owners)) {
        MailToKeepsDistinct(UserPhids(owners), package.primaryOwnerPhid);
        DedupOfDistinct(mailTo);
      }
    }

    /** The template `prepareMails` builds. */
    function Template(): (r: MailTemplate)
      reads this
      requires Ready()
      ensures Unpadded(r.subject) && Unpadded(r.varySubject)
      ensures r.from == package.actorPhid && r.relatedPhid == package.phid && r.isBulk
      ensures (r.threadId, r.threadTopic) == MailThreading(package.phid)
      ensures r.isNewThread <==> kind == Created
      ensures r.body == Join("\n\n", Sections())
    {
      var (threadId, threadTopic) := MailThreading(package.phid);
      MailTemplate(
        Subject(env.subjectPrefix, RenderPackageTitle()),
        VarySubject(env.subjectPrefix, kind.Verb(), RenderPackageTitle()),
        package.actorPhid,
        threadId,
        kind.IsNewThread(),
        threadTopic,
        package.phid,
        true,
        Join("\n\n", Sections()))
    }

    /**
     * `prepareMails()`: nothing, and no loading, when `needSend()` is false;
     * otherwise load, build the template and let the reply handler fan it out.
     */
    method PrepareMails(store: Store) returns (mails: seq<MailTemplate>)
      modifies this
      ensures !needSend ==> mails == [] && unchanged(this)
      ensures needSend ==> Loaded(store) && Ready() && mails == env.multiplex(Template(), Recipients())
    {
      if !needSend {
        return [];
      }
      LoadData(store);
      var prefix := env.subjectPrefix;
      var verb := kind.Verb();
      var title := RenderPackageTitle();
      var subject := Trim(prefix + " " + title);
      var varySubject := Trim(prefix + " [" + verb + "] " + title);
      var (threadId, threadTopic) := MailThreading(package.phid);
      var body := RenderBody();
      var template := MailTemplate(subject, varySubject, package.actorPhid, threadId,
                                   kind.IsNewThread(), threadTopic, package.phid, true, body);
      mails := env.multiplex(template, Recipients());
    }

    /** `send()`: every prepared mail is saved and sent, in order. */
    method Send(store: Store) returns (delivered: seq<MailTemplate>)
      modifies this
      ensures !needSend ==> delivered == [] && unchanged(this)
      ensures needSend ==> Loaded(store) && Ready() && delivered == env.multiplex(Template(), Recipients())
    {
      var mails := PrepareMails(store);
      delivered := SaveAndSendAll(mails);
    }
  }

  /** The `saveAndSend()` loop of `send()`: each mail goes out once, in order. */
  method SaveAndSendAll(mails: seq<MailTemplate>) returns (delivered: seq<MailTemplate>)
    ensures delivered == mails
  {
    delivered := [];
    for i := 0 to |mails|
      invariant delivered == mails[..i]
    {
      delivered := delivered + [mails[i]];
    }
    assert mails[..|mails|] == mails;
  }
}
