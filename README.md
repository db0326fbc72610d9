# Owners package notification mail, modelled in Dafny

Phabricator's Owners application sends a notification mail when a package is
created, changed or deleted. A package maps repository paths to the users
responsible for them. `PackageMail` is the abstract base of those mails. It loads
the package's owners and path rules, fixes the recipients and resolves display
handles. It then renders a plain-text body of six sections and builds one mail
template. A reply handler fans that template out per recipient.

This project models that base class.

- `php_strings.dfy` (module `PhpStrings`): `implode`, `trim`, `strtolower` and the
  decimal text of an integer, with the facts the mail needs about them.
- `php_arrays.dfy` (module `PhpArrays`): PHP `null` as `Option`, first-seen
  de-duplication, `array_filter` without a callback, and `array_select_keys`.
- `owners_data.dfy` (module `OwnersData`): the package, owner, path rule and
  handle records. It also holds the mail-to list and the grouping of path rules
  by repository, which is libphutil's `mgroup`.
- `package_mail.dfy` (module `OwnersMail`): the notification kinds, the
  subject and threading strings, and the class `PackageMail`. Its fields
  `handles`, `owners`, `paths` and `mailTo` are set by `LoadData`. The render
  methods read them. `PrepareMails` and `Send` drive the whole thing.

Loops in the source stay loops here. The repository sub-section, the paths
section and `send` are `for` loops with invariants. Each is proved equal to a
specification function, and the lemmas state what those functions promise.

The storage lookups become a `Store` value: the owners, the path rules and a
total handle resolver. The environment becomes an `Env` value fixed at
construction: the subject prefix, `getProductionURI` and the reply handler's
`multiplexMail`, the last two as opaque functions. The answer of `needSend()`
is a constructor argument. The base class answers true and subclasses may
override it.

## Model

| member | source | states |
|---|---|---|
| `OwnersMail.PackageMail.constructor` | src/applications/owners/mail/base/PackageMail.php:27-29 | the mail keeps its package, kind, send flag and environment; nothing is loaded yet |
| `OwnersData.UserPhids` | src/applications/owners/mail/base/PackageMail.php:81 | `mpull` gives one PHID per owner; every owner's PHID is in it and every PHID in it belongs to an owner |
| `OwnersData.MailTo` | src/applications/owners/mail/base/PackageMail.php:81-87 | mail-to starts with the owner PHIDs in owner order and contains the primary owner; its length is the owner count when the primary owner is an owner and one more otherwise; it holds nothing else |
| `OwnersData.MailToIdempotent` | src/applications/owners/mail/base/PackageMail.php:84-86 | applying the primary-owner union a second time changes nothing |
| `OwnersData.MailToKeepsDistinct` | src/applications/owners/mail/base/PackageMail.php:84-86 | if no owner is listed twice, adding the primary owner creates no duplicate |
| `OwnersData.GroupPaths` | src/applications/owners/mail/base/PackageMail.php:90 | `mgroup` yields no repository twice and no more groups than rules |
| `OwnersData.GroupPathsSpec` | src/applications/owners/mail/base/PackageMail.php:89-90 | grouping the rules one by one yields the rules' repositories once each in first-seen order; under every repository it yields that repository's rule paths once each in first-seen order |
| `OwnersData.GroupedPaths` | src/applications/owners/mail/base/PackageMail.php:89-90 | position by position, group i holds the de-duplicated paths of its repository; a path sits under a repository exactly when some rule maps that repository to that path |
| `OwnersData.HandleIds` | src/applications/owners/mail/base/PackageMail.php:92-96 | `array_mergev` of mail-to, the actor and the grouped repositories: a PHID is requested exactly when it is in one of the three |
| `OwnersData.LoadedHandleIds` | src/applications/owners/mail/base/PackageMail.php:92-97 | the PHIDs sent for handle resolution are exactly the owners, the primary owner, the actor and every repository a path rule names |
| `PhpArrays.Dedup` | src/applications/owners/mail/base/PackageMail.php:90 | de-duplication has no repeats and keeps exactly the input's elements |
| `PhpArrays.DedupKeepsFirstSeenOrder` | src/applications/owners/mail/base/PackageMail.php:90 | an element earlier in the de-duplicated list was first seen earlier in the input |
| `PhpArrays.DedupOfDistinct` | src/applications/owners/mail/base/PackageMail.php:204 | a list without repeats is its own de-duplication, so selecting keys that are all present and distinct keeps them as they are |
| `PhpArrays.SelectKeys` | src/applications/owners/mail/base/PackageMail.php:134 | `array_select_keys` returns entries of the dictionary with no key twice, and a key appears exactly when it is requested and present |
| `PhpArrays.SelectKeysAllPresent` | src/applications/owners/mail/base/PackageMail.php:204 | when every requested key is present, the keys selected are the requested keys de-duplicated in first-seen order |
| `PhpArrays.ArrayFilter` | src/applications/owners/mail/base/PackageMail.php:163 | `array_filter` keeps only truthy values (not `null`, `""` or `"0"`) |
| `PhpArrays.ArrayFilterKeepsTruthy` | src/applications/owners/mail/base/PackageMail.php:163 | every truthy slot's value is kept |
| `PhpArrays.ArrayFilterCount` | src/applications/owners/mail/base/PackageMail.php:163 | the result has exactly one entry per truthy slot |
| `PhpArrays.ArrayFilterAppend` | src/applications/owners/mail/base/PackageMail.php:163 | the order is kept: filtering a concatenation concatenates the two filtered halves |
| `PhpArrays.FirstIndex` | src/applications/owners/mail/base/PackageMail.php:84 | the first position of an element holds it and no earlier position does |
| `PhpStrings.TrimLeft` | src/applications/owners/mail/base/PackageMail.php:186-187 | the leading part of `trim`: a suffix that starts with a non-strippable character, where everything dropped was strippable |
| `PhpStrings.TrimRight` | src/applications/owners/mail/base/PackageMail.php:186-187 | the trailing part of `trim`: a prefix that ends with a non-strippable character, where everything dropped was strippable |
| `PhpStrings.Trim` | src/applications/owners/mail/base/PackageMail.php:186-187 | the result is a contiguous part of the input, and everything dropped in front of it and after it is strippable; neither end of the result is strippable; a string with nothing to strip comes back unchanged |
| `PhpStrings.JoinEnds` | src/applications/owners/mail/base/PackageMail.php:164 | `implode` of no parts is empty; otherwise the result starts with the first part and ends with the last |
| `PhpStrings.Lower` | src/applications/owners/mail/base/PackageMail.php:105 | `strtolower` keeps the length, leaves no ASCII upper-case letter, maps each upper-case letter to its lower-case letter and keeps every other character |
| `PhpStrings.LowerIdempotent` | src/applications/owners/mail/base/PackageMail.php:105 | lower-casing twice is lower-casing once |
| `PhpStrings.Decimal` | src/applications/owners/mail/base/PackageMail.php:110 | the package ID in the detail link is written as decimal digits, at least one and with no leading zero |
| `PhpStrings.DecimalRoundTrip` | src/applications/owners/mail/base/PackageMail.php:110 | reading the decimal text back gives the ID |
| `PhpStrings.JoinUnderHeader` | src/applications/owners/mail/base/PackageMail.php:145-152 | joining the header with sub-sections that were each joined by newlines gives the header followed by all their lines |
| `OwnersMail.KindsAreDistinguished` | src/applications/owners/mail/base/PackageMail.php:31-33 | each notification kind has its own verb, and only the creation mail starts a new thread |
| `OwnersMail.Subject` | src/applications/owners/mail/base/PackageMail.php:186 | the subject has nothing left to strip and is no longer than `prefix title` |
| `OwnersMail.VarySubject` | src/applications/owners/mail/base/PackageMail.php:187 | the vary-subject has nothing left to strip and is no longer than `prefix [verb] title` |
| `OwnersMail.SubjectWithPrefix` | src/applications/owners/mail/base/PackageMail.php:183-186 | with an unpadded prefix and title, the subject is `prefix title` |
| `OwnersMail.SubjectWithoutPrefix` | src/applications/owners/mail/base/PackageMail.php:186 | with an empty prefix, the subject is the title |
| `OwnersMail.VarySubjectWithPrefix` | src/applications/owners/mail/base/PackageMail.php:187 | with an unpadded prefix and title, the vary-subject is `prefix [verb] title` |
| `OwnersMail.VarySubjectWithoutPrefix` | src/applications/owners/mail/base/PackageMail.php:187 | with an empty prefix, the vary-subject is `[verb] title` |
| `OwnersMail.MailThreading` | src/applications/owners/mail/base/PackageMail.php:209-214 | the thread id is `package-` and the thread topic `package ` (with a space), each followed by the package PHID |
| `OwnersMail.ThreadingIdentifiesPackage` | src/applications/owners/mail/base/PackageMail.php:209-214 | two mails share a thread id, and likewise a thread topic, exactly when their package PHIDs are equal; a thread id never equals a thread topic |
| `OwnersMail.ArrayFilterSections` | src/applications/owners/mail/base/PackageMail.php:157-163 | filtering the six slots keeps the five fixed sections in order, and keeps the owners slot exactly when it holds a section |
| `OwnersMail.RepoBlocks` | src/applications/owners/mail/base/PackageMail.php:148-150 | one non-empty block of lines per repository group |
| `OwnersMail.SummaryLines` | src/applications/owners/mail/base/PackageMail.php:104-112 | the four summary lines joined by newlines give the action line, a blank line, `PACKAGE DETAIL` and the indented link |
| `OwnersMail.PackageMail.LoadData` | src/applications/owners/mail/base/PackageMail.php:76-98 | after loading: the owners are the stored ones; mail-to is the owner/primary-owner union; the paths are the grouped rules; the handles are the resolver's answers for exactly the requested PHIDs |
| `OwnersMail.PackageMail.LookupsResolve` | src/applications/owners/mail/base/PackageMail.php:92-97 | every PHID that rendering looks up has a handle: the actor, the primary owner, every owner, every mail-to entry and every grouped repository |
| `OwnersMail.PackageMail.RenderPackageTitle` | src/applications/owners/mail/base/PackageMail.php:55-57 | the title is the package's name |
| `OwnersMail.PackageMail.RenderSummarySection` | src/applications/owners/mail/base/PackageMail.php:100-113 | the summary is `<actor name> <lowercased verb> <title>.`, a blank line, `PACKAGE DETAIL`, then two spaces and the production URI of `/owners/package/<id>/` |
| `OwnersMail.PackageMail.RenderDescriptionSection` | src/applications/owners/mail/base/PackageMail.php:115-118 | the section is the `PACKAGE DESCRIPTION` header line, then two spaces and exactly the description |
| `OwnersMail.PackageMail.RenderPrimaryOwnerSection` | src/applications/owners/mail/base/PackageMail.php:120-124 | the section is the `PRIMARY OWNER` header line, then two spaces and exactly the primary owner's resolved name |
| `OwnersMail.PackageMail.RenderOwnersSection` | src/applications/owners/mail/base/PackageMail.php:126-138 | the section is `null` exactly when there are no owners; otherwise it is the `OWNERS` header line, then two spaces and the owner names joined by `, ` |
| `OwnersMail.PackageMail.OwnerNames` | src/applications/owners/mail/base/PackageMail.php:133-135 | the owner names are the resolved names of the owner PHIDs, each PHID once, in first-seen order, so a repeated owner appears once |
| `OwnersMail.PackageMail.OwnerNamesInOwnerOrder` | src/applications/owners/mail/base/PackageMail.php:133-135 | with no owner listed twice, the names are the owners' resolved names in owner order |
| `OwnersMail.PackageMail.RenderAuditingEnabledSection` | src/applications/owners/mail/base/PackageMail.php:140-143 | the section is the `AUDITING ENABLED STATUS` header line and two spaces, then `Enabled` exactly when auditing is on and `Disabled` exactly when it is off |
| `OwnersMail.PackageMail.RenderRepoSubSection` | src/applications/owners/mail/base/PackageMail.php:59-70 | the block is `  In repository <name> - <production URI>` followed by one `    <path>` line per path, joined by newlines |
| `OwnersMail.PackageMail.RenderPathsSection` | src/applications/owners/mail/base/PackageMail.php:145-153 | the section is `PATHS` followed by every repository block's lines in group order, joined by newlines |
| `OwnersMail.PackageMail.PathsSectionFromRules` | src/applications/owners/mail/base/PackageMail.php:148-150 | after loading, block i belongs to the i-th repository of the rules in first-seen order and lists that repository's distinct rule paths in first-seen order |
| `OwnersMail.PackageMail.SectionsAreFilteredSlots` | src/applications/owners/mail/base/PackageMail.php:155-163 | the body sections (summary, description, primary owner, owners only if any, auditing, paths) are exactly what `array_filter` leaves of the six slots |
| `OwnersMail.PackageMail.RenderBody` | src/applications/owners/mail/base/PackageMail.php:155-165 | the body is the sections in that fixed order, joined by blank lines |
| `OwnersMail.PackageMail.BodyWithoutOwners` | src/applications/owners/mail/base/PackageMail.php:163-164 | with no owners the body is summary, description, primary owner, auditing and paths with one blank line between neighbours and no gap where the owners section would be |
| `OwnersMail.PackageMail.BodyWithOwners` | src/applications/owners/mail/base/PackageMail.php:157-164 | with owners, the owners section sits between the primary owner and the auditing status |
| `OwnersMail.PackageMail.Recipients` | src/applications/owners/mail/base/PackageMail.php:204 | the recipients are the mail-to PHIDs, each once in first-seen order, each paired with its handle |
| `OwnersMail.PackageMail.RecipientsAreMailTo` | src/applications/owners/mail/base/PackageMail.php:202-205 | the recipients handed to the reply handler are mail-to once each in first-seen order, each with its handle; with no owner listed twice they are mail-to itself |
| `OwnersMail.PackageMail.Template` | src/applications/owners/mail/base/PackageMail.php:191-199 | the template is bulk mail from the actor about the package, with nothing left to strip on either subject, the package's thread id and topic, a new thread exactly for the creation mail, and the rendered body |
| `OwnersMail.PackageMail.PrepareMails` | src/applications/owners/mail/base/PackageMail.php:175-207 | when `needSend()` is false the result is empty and nothing is loaded; otherwise the mail is loaded and the result is what the reply handler makes of the template and the recipients |
| `OwnersMail.PackageMail.Send` | src/applications/owners/mail/base/PackageMail.php:167-173 | when `needSend()` is false nothing is sent and nothing is loaded; otherwise exactly the mails `prepareMails` returns are sent |
| `OwnersMail.SaveAndSendAll` | src/applications/owners/mail/base/PackageMail.php:170-172 | every mail is sent once, in the order given; delivery never fails in the model |

## Left out

- `newReplyHandler` and its reflection-based construction from configuration are left out. The reply handler is reduced to its `multiplexMail`, an opaque function in `Env`. Its `setMailReceiver` binding is not modelled.
- The subject prefix is read from global configuration. Here it is the `subjectPrefix` field of `Env`.
- `getProductionURI` is an opaque function from string to string.
- Storage is not modelled: `loadOwners`, `loadPaths` and the handle loader become the `Store` input. The resolver answers for every PHID, as Phabricator's loader does. So the PHP fatal error on a missing handle cannot arise in the model.
- `PhabricatorMetaMTAMail` is reduced to the `MailTemplate` record of the values its setters receive. The mail objects that `multiplexMail` returns are modelled as templates too.
- `saveAndSend` is mail transport. `Send` returns the mails in the order it would send them.
- SaveAndSendAll: a failing `saveAndSend` is not modelled. In the source its exception leaves the loop at line 171, so the later mails are not sent. In the model every delivery succeeds.
- The concrete subclasses are not part of this model. The kinds `Created`, `Changed` and `Deleted` use those words as verbs, and only `Created` starts a new thread. Any section a subclass overrides is rendered as the base class renders it.
- PHP's loose `==` in `in_array` and its conversion of numeric-string array keys to integers are not modelled. PHIDs are compared as strings and stay strings.
- A package without a primary owner, where the PHID is `null`, is not modelled. The primary owner is always a string.
- `strtolower` is modelled for ASCII letters only. Locale-dependent case mapping is left out.
- Each `mgroup` group also keeps the path rule objects under every path. `renderRepoSubSection` ignores them, so the model keeps only the paths.
- Output order follows first-seen order of repositories and of paths. Permuting the path rules can therefore change the rendered text: the source does not sort.
