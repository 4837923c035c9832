# auraCP: a verified model of its provisioning core

auraCP hosts web sites on one Linux machine: for every site it writes an nginx virtual host, a
PHP-FPM pool, certificates and a home directory, and keeps a row in its store. This project models
the parts of the panel where a mistake takes other sites down or leaves them inconsistent, and
proves what those parts keep. `dafny verify dfyconfig.toml` checks everything.

The host is abstract: files are a map from path to contents or link, a document tree is a map from
component lists to nodes, the store is a record of maps, and everything outside the panel (system
calls, `nginx -t`, systemd, the ACME server, the keyed hash, the clock) is a parameter that may turn
out either way at every step. Code that works step by step is a class whose methods are proved equal
to a state function, for every outcome; the theorems are about those functions.

| part | modules |
|---|---|
| paths and identifiers | `Text`, `Paths` |
| the vhost swap: stage, link, test, commit or roll back | `HostFs`, `VhostSwap`, `VhostInterleaving` |
| provisioning: create, reapply, PHP switch, certificate job, delete | `Provisioning`, `ProvisioningAnswers`, `ProvisioningRuns`, `ProvisioningDelete`, `ProvisioningDrift`, `ProvisioningServed`, `Panel` |
| the file manager and its archives | `LexicalPath`, `SiteTree`, `Archive`, `ArchivePlanting`, `ArchiveRoundTrip`, `FileManager` |
| the placeholder renderer and its six templates | `Placeholders`, `VhostRender`, `SiteTemplates`, `VhostTemplates`, `VhostReadBack` |
| the doctor and the texts it reads back | `ConfigScan`, `Doctor`, `PipelineVhost`, `PanelVhost` |
| login limiter, certificate rows, version order, one-time codes, log tails | `RateLimiter`, `Certificates`, `Versions`, `Totp`, `LogTail` |

## What turned out differently

Where the code and its comments or documentation disagree, the model follows the code.

- The swap's link is not atomic: between rename and relink the committing site's link dangles, so a
  concurrent swap of another site is rejected for no fault of its own (`CommitWindowRejectsOthers`).
- A failed rename leaves the live link on the staging file; the next rejected swap then deletes its
  own restore target (`FailedRenameThenRejectionDangles`). `RejectionRestoresExactly` gives the
  exact condition under which roll-back is exact. The same holds with calls of other sites in
  flight: from a quiet host, every way a call can end leaves the enabled set valid if and only if
  its site's link does not rest on the staging file (`OneCallIsSafeExactly`). This takes the unlinks
  whose errors the code ignores to succeed: when one of a commit, a rollback or a removal fails, the
  site's link is left dangling (`LeftLinkDangles`).
- "Drift is structurally impossible" (README.md:45) holds for every run in which deletes are clean:
  they remove user and row, and the site's certificate job is over (`RunsAreDriftFree`). The
  condition is exact: after the delete of a site, some lawful continuation makes vhost, pool and
  row disagree if and only if the delete was unclean (`DriftExactlyAfterUncleanDelete`), and it
  happens on an ordinary host (`DriftIsReachable`). `LeftRowDrifts` and `StaleCertJobDrifts` are
  the two ways.
- nginx serves what the live link rests on, which after a failed rename is the staging file. For a
  site with a row that is always the row's own vhost (`RowsAreServed`). For a domain without one it
  can name another user than a freshly written pool does, although the file in sites-available
  never does: `FailedRenameMakesStale` is the run, `CreateServesExactly` the exact condition on the
  create, `SteadyRunsServeNoDrift` the guarantee without such creates.
- A delete leaves the logrotate entry, a staging leftover and the site's settings behind, although
  the comment at internal/api/sites_creator.go:211-214 lists the settings among what is torn down
  (`LifetimeLeavesOnlyLeftovers`).
- Placeholders inside an operator's settings are stripped, not expanded, against
  internal/webserver/processor/settings.go:3-4. `SettingsAreStripped` gives the exact condition on
  the text after the settings under which that is all that happens; all six templates meet it
  (`EveryTypeStripsSettings`). Unknown placeholders vanish silently
  (`NothingLeftBehind`), against internal/webserver/template/template.go:50-54.
- "No brace next to a placeholder" is not enough for the renderer to be a simultaneous substitution
  (`UntidyBodiesJoin`), nor is it necessary. `TidyIsExact` gives the exact condition on a body: no
  literal text that runs into a placeholder could begin a placeholder itself, and the text after
  one does not complete a placeholder that begins with the brace a value may end in. All six
  templates meet it (`EveryTypeRenders`). Values must not hold two opening braces in a row.
- A certificate with between thirty days less one second and thirty days left is neither fresh nor
  due: `EnsureCert` would renew it, a renewal tick leaves it (`WindowIsExact`).
- A domain whose first issuance fails has no expiry date and is never picked by the renewal loop
  (`FailedFirstIssuanceIsNeverRetried`), against internal/api/sites_creator.go:156-158.
- An archive whose tree holds a name with two dots in a row is written without complaint and then
  refused on extraction (`UnzipUndoesZip`, both directions).
- Basic auth with a user but without a hash leaves a vhost that names a password file which is not
  there: the template asks for the user only (internal/webserver/template.go:70-73), the file for
  both. `AuthReferenceDangles` says this is exactly when it happens. An unlink of the file that
  fails is ignored, so the file of a site whose basic auth is off can stay (`AuthFileIsExact`).
- The doctor reports every reverse-proxy site, however healthy: its first root is the one in the
  ACME challenge, from which no user can be read (`PipelineHealth`).
- A version switch to a version that is not installed fails, but the row keeps the new version and
  the pool stays in the old one (`SwitchEnds`).
- A log line that begins exactly at the seek offset is complete but dropped, in every file
  (`LineAtTheOffsetIsDropped`); `DroppedLineIsWhole` says exactly when that happens.

## Model

| member | source | states |
|---|---|---|
| Paths.PathsInjective | internal/paths/paths.go:43-59 | no two artifacts (vhost, staging file, link, pool per PHP version, certificate, key, htpasswd, logrotate entry, home) of valid domains and users share a path |
| Paths.ReservedNamesFree | internal/paths/paths.go:33-41 | no valid domain can claim the file name of the panel's or the catch-all vhost |
| Paths.DomainChars | internal/validate/validate.go:11-25 | a domain that passes the check holds letters, digits, hyphens and dots only, starts with a letter or digit and contains a dot |
| HostFs.ResolveFrame | internal/webserver/webserver.go:184-217 | a path that does not pass through a site's three nginx files reads the same whatever a swap of that site does to them |
| VhostSwap.NginxFiles.Apply | internal/webserver/webserver.go:184-217 | the whole stage, link, test, commit-or-roll-back call: final files and outcome, for every test predicate and every failing call, including the removals whose errors are ignored |
| VhostSwap.RejectionRestoresExactly | internal/site/creator/creator.go:184-223 | a rejected swap restores link, canonical file and staging file exactly if and only if the state was clean: no staging file, and the live entry absent or a link |
| VhostSwap.CommitGoesLive | internal/webserver/webserver.go:209-217 | a committed swap leaves no staging file, the new bytes live behind the link, and every other site's files untouched |
| VhostSwap.CommittedViewWasTested | internal/webserver/webserver.go:203-209 | what nginx reads after a commit is entry for entry what the test was asked about |
| VhostSwap.RejectionKeepsViewExactly | internal/webserver/webserver.go:203-208 | a rejected swap leaves everything nginx reads as it was if and only if the live entry was restorable |
| VhostSwap.PassingSetStaysPassing | internal/webserver/webserver.go:203-217 | an enabled set that passed the (arbitrary, whole-set) test before a swap passes it afterwards, accepted or rejected |
| VhostSwap.FailedRenameThenRejectionDangles | internal/webserver/webserver.go:203-212 | counterexample: after a failed rename the link rests on the staging file, and the next rejected swap leaves the live link dangling |
| VhostSwap.SwapIsAfterOutcome | internal/webserver/webserver.go:184-217 | what the protocol leaves of file, link and staging file is a function of its outcome and of which removals failed, for every test and every failing call |
| VhostSwap.ServedIsResolved | internal/webserver/webserver.go:192-216 | the text served, by what the live link rests on, is what resolving the live entry yields |
| VhostInterleaving.NextKeepsInv | internal/webserver/webserver.go:184-217 | every possible step of any call keeps the invariant of all calls in flight |
| VhostInterleaving.InitEstablishesInv | internal/webserver/webserver.go:184-217 | a quiet host with a valid enabled set and private links satisfies the invariant |
| VhostInterleaving.RunKeepsInv | internal/webserver/webserver.go:184-217 | the invariant holds after every run of interleaved steps |
| VhostInterleaving.InterleavedSwapsAreSafe | internal/webserver/webserver.go:156-217 | under any interleaving of calls for distinct domains, failing renames included, whenever no call is in flight every enabled link resolves to valid bytes: the initial ones or those of the last swap of its own site that passed its test |
| VhostInterleaving.CommitWindowRejectsOthers | internal/webserver/webserver.go:209-217 | between rename and relink the committing site's link dangles, so a test by any other call in that window fails |
| VhostInterleaving.OneCallIsSafeExactly | internal/webserver/webserver.go:184-217 | from a quiet host that satisfies the invariant, every way one call for a site can end, whatever other calls run beside it, leaves the whole enabled set valid if and only if the site's link does not rest on the staging file |
| VhostInterleaving.LeftLinkDangles | internal/webserver/webserver.go:192-244 | counterexample: an unlink that fails in a commit, a rollback or the removal of a site that rests on its own file leaves that site's link dangling once the call is over |
| VhostInterleaving.SoloCallIsSwap | internal/webserver/webserver.go:184-217 | the step machine run for one undisturbed call is the sequential swap, for every outcome of every step, removals included |
| Panel.Host.Installed | internal/phpruntime/phpruntime.go:56-64 | a version is listed exactly when it is supported and its pool directory exists |
| Panel.Host.SweepPools | internal/phpruntime/phpruntime.go:256-277 | the loop unlinks the domain's pool in every listed version but one, and nothing else |
| Panel.Host.WritePool | internal/phpruntime/phpruntime.go:210-320 | validation, sweep and write step by step give the pool table and verdict of the state function, for every failing step |
| Panel.Host.RemovePool | internal/phpruntime/phpruntime.go:325-343 | the domain's pool goes in every installed version |
| Panel.Host.HomeUsable | internal/site/creator/preflight.go:64-88 | a home is reusable exactly when it holds only directories that are empty or named .ssh |
| Panel.Host.Preflight | internal/site/creator/preflight.go:41-137 | the early-return loops accept exactly the specifications the predicate describes |
| Panel.Host.CreateUser | internal/osuser/osuser.go:23-57 | user creation refuses an existing user and lays out the home |
| Panel.Host.CreateSslCertFiles | internal/site/creator/creator.go:122-144 | a self-signed pair is written only when no certificate is there |
| Panel.Host.SwapVhost | internal/site/creator/creator.go:152-224 | what each outcome of the swap, failing removals included, leaves of vhost, link and staging file, and whose text the staging file holds |
| Panel.Host.DoStep | internal/site/creator/creator.go:66-224 | one pipeline step on the host |
| Panel.Host.RunPipeline | internal/site/creator/php.go:96-114 | the steps run in order and stop at the first error |
| Panel.Host.CreateSite | internal/api/sites_creator.go:53-164 | preflight, pipeline, probe, insert (with the allocated port's loopback address for Node.js and Python) and background job, stopping at the first error |
| Panel.Host.FinishJob | internal/api/sites_creator.go:173-209 | the background job issues and re-renders from the record captured at creation |
| Panel.Host.RunDelete | internal/site/creator/delete.go:51-113 | the sweep of every artifact, then the OS user |
| Panel.Host.DeleteSite | internal/api/sites_creator.go:217-247 | disk teardown, then the store rows |
| Panel.Host.ApplyWeb | internal/webserver/webserver.go:156-237 | swap, htpasswd file and reload for a record |
| Panel.Host.ReapplyWeb | internal/api/siteconfig.go:25-62 | the vhost is rebuilt from the stored row |
| Panel.Host.SetConfig | internal/api/siteconfig.go:76-108 | settings are stored, possibly not all of them; only then the vhost is rebuilt |
| Panel.Host.ReapplyRuntime | internal/site/site.go:295-325 | the pool or unit is rewritten from the stored row, by the type of the site |
| Panel.Host.SwitchPhp | internal/api/phpruntime.go:85-104 | the row changes first, without validation, then the pool |
| Provisioning.SwapRefines | internal/webserver/webserver.go:184-217 | the provisioning state follows the swap protocol: if it names what the three files hold before a swap, it names what they hold, and what the live link reads, afterwards |
| ProvisioningAnswers.PreflightAccepts | internal/site/creator/preflight.go:41-137 | for every state and specification, acceptance type by type, in literal conditions: free place and valid names; an installed version for PHP; a start file for Node.js; a module for Python; for a reverse proxy an upstream that parses over http or https to a host that is neither localhost nor begins with 127. |
| ProvisioningAnswers.RowsComeFromAcceptedSpecs | internal/api/sites_creator.go:53-164 | after any run from an empty host every row was stored by a create of the run that was accepted: no reverse-proxy row has a loopback upstream, no Node.js or Python row lacks its start file or module |
| ProvisioningAnswers.CreateIsComplete | internal/api/sites_creator.go:53-164 | a create that succeeds leaves user, home, logrotate entry, certificate, live vhost, pool or unit by type, the row and the certificate job, and nothing staged |
| ProvisioningAnswers.RerenderEnds | internal/webserver/webserver.go:156-237 | every way a re-render ends: when it fails before its vhost is live, what is served when it is, what becomes of the password file by the settings and by each failing call, and when it succeeds |
| ProvisioningAnswers.AuthFileIsExact | internal/webserver/webserver.go:218-235 | after a successful re-render the password file is there if and only if basic auth is on with a user and a hash, or the file was there and its unlink failed |
| ProvisioningAnswers.SettingsEnd | internal/api/siteconfig.go:76-108 | the settings are stored whatever follows; a failed store leaves files and vhosts alone; a success serves the row's vhost and has the password file exactly as the new settings ask |
| ProvisioningAnswers.AuthReferenceDangles | internal/webserver/template.go:70-73 | after a successful re-render whose unlink succeeded, the vhost names a password file that is not there if and only if there is a user but no hash |
| ProvisioningAnswers.PoolWriteEnds | internal/phpruntime/phpruntime.go:210-320 | a pool write succeeds if and only if the version is supported and installed, the names are valid and every call succeeds; then it is the domain's only pool, as the user on the domain's socket; a refusal changes nothing, and there is never more than one |
| ProvisioningAnswers.RuntimeEnds | internal/site/site.go:295-325 | the backend of a stored site by type: exactly when it is rewritten, the only pool in the row's version or the unit, at most one pool when it fails, other sites untouched |
| ProvisioningAnswers.SwitchEnds | internal/api/phpruntime.go:85-104 | a version switch on a consistent host: the row has the new version whatever happens; it succeeds if and only if the version is installed and every call does, and then the site's only pool is in it, running as the row's user; otherwise at most one pool |
| ProvisioningAnswers.JobEnds | internal/api/sites_creator.go:173-209 | the certificate job, issued or not: what it stores, and whose vhost it serves when it succeeds |
| ProvisioningAnswers.PurgeSparesUsedVersions | internal/phpruntime/phpruntime.go:146-159 | a PHP version goes if and only if no row names it and no pool lies in it |
| ProvisioningAnswers.DeleteEnds | internal/api/sites_creator.go:217-247 | every way a delete ends: the artifacts that always go, the user, home and unit that go when the user can be removed, the store rows that go only then, and when it succeeds |
| ProvisioningRuns.SweepIsExact | internal/phpruntime/phpruntime.go:256-277 | on a host whose pools lie in installed versions, a pool survives the sweep exactly when it belongs to another domain or to the kept version |
| ProvisioningRuns.WritePoolLeavesOne | internal/phpruntime/phpruntime.go:210-320 | whatever its outcome, writing a pool leaves at most one supported version holding one for the domain; a success leaves exactly the requested one |
| ProvisioningRuns.RemovePoolLeavesNone | internal/phpruntime/phpruntime.go:325-343 | no supported version holds a pool for the domain afterwards |
| ProvisioningRuns.CreateKeepsInv | internal/api/sites_creator.go:53-164 | a create keeps the host consistent wherever it stops |
| ProvisioningRuns.DeleteKeepsInvExactly | internal/api/sites_creator.go:217-247 | deleting an existing site keeps the invariant if and only if the user and the row go and no certificate job of the site is pending |
| ProvisioningRuns.DoKeepsInv | internal/api/siteconfig.go:25-62 | every operation (create, reapply, version switch, job, delete, package changes) keeps the invariant |
| ProvisioningRuns.RunKeepsInv | internal/api/sites_creator.go:53-247 | the invariant holds after every run of operations |
| ProvisioningRuns.RunsAreDriftFree | internal/site/creator/php.go:96-114 | from an empty host, after any run, the vhost file and pool of one domain name the same user and socket, and both match the stored row's user when there is one; at most one version holds a pool |
| ProvisioningDelete.DeleteIsCompleteAndLocal | internal/site/creator/delete.go:51-113 | after a clean delete no vhost, link, pool in any version, certificate, key, htpasswd, home, user, row or job of the site is left, nothing that belongs to another site differs, and preflight accepts a PHP site under that name again exactly when its version is supported and installed |
| ProvisioningDelete.LifetimeLeavesOnlyLeftovers | internal/site/creator/delete.go:51-113 | creating a site, any upkeep of it and deleting it give back the original host apart from the logrotate entry, a staging leftover and the site's settings |
| ProvisioningDrift.LeftRowDrifts | internal/site/creator/delete.go:96-102 | counterexample to the drift claim: when user or row deletion fails, the surviving row, of any type, disagrees with the pool of a second create |
| ProvisioningDrift.StaleCertJobDrifts | internal/api/sites_creator.go:159-161 | counterexample to the drift claim: a certificate job that outlives its site re-renders the next site of that name for the old user |
| ProvisioningDrift.DriftExactlyAfterUncleanDelete | internal/api/sites_creator.go:217-247 | after the delete of a site, a lawful continuation that drifts exists if and only if the delete was unclean |
| ProvisioningDrift.DriftIsReachable | internal/api/sites_creator.go:53-247 | from an ordinary host, for all valid names: create, delete while the certificate job is pending, and some lawful continuation drifts |
| ProvisioningServed.RowsAreServed | internal/webserver/webserver.go:192-216 | after any lawful run, whatever the live link of a site with a row resolves to is the row's own vhost, and its pools agree with it |
| ProvisioningServed.CreateServesExactly | internal/site/creator/creator.go:184-223 | every way a create can end leaves the served vhost and the pools in agreement if and only if the live link does not rest on a staging file of another vhost when it starts |
| ProvisioningServed.SteadyRunsServeNoDrift | internal/site/creator/php.go:96-114 | after any lawful run without such creates, the vhost served for a domain, row or not, names the user and socket of its pool |
| ProvisioningServed.FailedRenameMakesStale | internal/site/creator/creator.go:215-218 | counterexample for what is served: a create whose rename fails, then one for another user whose staging write fails; the files in sites-available agree throughout |
| LexicalPath.JoinAbs | internal/files/files.go:97-98 | joining onto a clean absolute path walks on from its components, for every sub path |
| LexicalPath.ContainmentIsComponentwise | internal/files/files.go:99-101 | the textual prefix-with-separator test holds exactly when one component list extends the other |
| LexicalPath.BaseIsOneComponent | internal/files/files.go:158-161 | a base name is the last component of its path, trailing slashes aside; a path of slashes has the base slash, the empty path the base dot |
| LexicalPath.WalkLaws | internal/files/files.go:97-98 | the laws that determine a cleaned path, in any surroundings: empty parts and dots vanish, so do a name with the dot-dot behind it and a dot-dot at the root, and plain parts stay |
| SiteTree.ContainmentIsExact | internal/files/files.go:90-103 | for every sub path, resolve accepts if and only if the cleaned components of root/sub extend the root's, yields exactly that path, and the result has no empty, dot or dot-dot component |
| SiteTree.SaveLands | internal/files/files.go:156-184 | an upload is refused exactly for a bad name or an escaping directory; otherwise it writes at the cleaned directory plus one plain name, and the second containment check never fires |
| SiteTree.SaveAtLands | internal/files/files.go:113-151 | a nested upload is refused exactly when the relative path is malformed or the cleaned root/base/path is not strictly inside the root; otherwise it writes exactly there |
| SiteTree.LandingIsClean | internal/files/files.go:113-151 | the landing place is the lexically cleaned root/base/path |
| SiteTree.WrittenExactly | internal/files/files.go:166-183 | a write succeeds exactly under the listed conditions, and then adds the file and its missing parents and nothing else |
| SiteTree.DeleteLands | internal/files/files.go:211-220 | delete refuses exactly the root and what is outside it, and otherwise removes the whole target subtree |
| SiteTree.RenameLands | internal/files/files.go:224-244 | a rename always goes to a sibling strictly under the root: the weaker prefix test never decides |
| SiteTree.MovedSafe | internal/files/files.go:243-243 | a rename keeps the tree well formed and changes nothing outside the root |
| SiteTree.RenameBack | internal/files/files.go:224-244 | renaming back restores the tree exactly |
| SiteTree.MkdirAllMeans | internal/files/files.go:136-138 | creating directories adds missing ancestors only, as directories, and success means the directory is there |
| SiteTree.DeleteUndoesSaveAt | internal/files/files.go:113-220 | deleting a freshly uploaded file restores the tree the upload found |
| FileManager.Manager.Resolve | internal/files/files.go:90-103 | identifier checks, cleaning and the prefix test; a target comes back exactly for contained sub paths of valid sites |
| FileManager.Manager.MkdirAll | internal/files/files.go:136-138 | missing ancestors are created level by level, as directories, possibly stopping part-way; success means the directory is there, and nothing that was there changes |
| FileManager.Manager.Save | internal/files/files.go:156-184 | the upload step by step |
| FileManager.Manager.SaveAt | internal/files/files.go:113-151 | the nested upload step by step, including the loop over path parts |
| FileManager.Manager.Delete | internal/files/files.go:211-220 | the removal step by step |
| FileManager.Manager.Rename | internal/files/files.go:224-244 | the rename step by step |
| FileManager.Manager.AddTree | internal/files/files.go:441-485 | one walk: entries and running total, or the limit is exceeded |
| FileManager.Manager.Source | internal/files/files.go:419-428 | a source is accepted exactly when it resolves strictly below the root |
| FileManager.Manager.Gather | internal/files/files.go:417-428 | all sources, or refusal if any is unacceptable |
| FileManager.Manager.AddAll | internal/files/files.go:441-491 | all walks in order, stopping at the first error |
| FileManager.Manager.ZipInto | internal/files/files.go:430-500 | the archive file is created, filled and kept, or removed again on any error |
| FileManager.Manager.Zip | internal/files/files.go:401-501 | the archive call step by step |
| FileManager.Manager.Unzip | internal/files/files.go:518-674 | format by extension (zip, plain or gzipped tar), then the entries in order up to the first error |
| FileManager.Manager.ExtractEntry | internal/files/files.go:551-672 | one entry of a zip or tar archive: name and containment checks, then the directory or file, or nothing for a tar entry of another kind |
| FileManager.ZipAllOrNothing | internal/files/files.go:434-500 | an archive appears whole in the root or the tree is as before |
| FileManager.DoSafe | internal/files/files.go:113-674 | every operation keeps the tree well formed and changes nothing that is not strictly below its own root, apart from creating missing ancestors |
| FileManager.RunsAreIsolated | internal/files/files.go:113-674 | any run of calls, with any arguments and any zip or tar archives, leaves every site the run does not name exactly as it was |
| FileManager.RunsKeepTheRest | internal/files/files.go:113-674 | what lies below no document root of the run survives it unchanged |
| Archive.ZipSucceedsExactly | internal/files/files.go:401-501 | an archive is finished if and only if name and sources are acceptable, its place is free, every source exists, the files weigh at most 2 GiB together, and no system call fails |
| Archive.UnsafeNamesOnly | internal/files/files.go:551-563 | an entry is turned away exactly when its name starts with a slash or contains two dots in a row: the two later checks never decide |
| Archive.UnzipStaysInside | internal/files/files.go:543-674 | extraction of any zip or tar archive at all changes nothing outside the directory that holds it |
| ArchivePlanting.ExtractionPlantsExactly | internal/files/files.go:518-674 | for .zip, .tar, .tar.gz and .tgz alike: an archive whose entries make up a forest, extracted where none of it exists and no call fails, ends well if and only if no name starts with a slash or holds two dots in a row and the archive can be read to its end; with safe names the forest is then there and nothing else is new |
| ArchiveRoundTrip.OneFileExtracted | internal/files/files.go:518-674 | the simplest instance: an archive of any of the four formats with one regular file creates it with its contents |
| ArchiveRoundTrip.EntryNameIs | internal/files/files.go:454-457 | the name an entry gets is its path from the source's own name on |
| ArchiveRoundTrip.GroveEncoded | internal/files/files.go:441-485 | the archive's entries are exactly those of the nodes of every source |
| ArchiveRoundTrip.UnzipUndoesZip | internal/files/files.go:401-598 | extracting a finished archive into a root that holds nothing else succeeds if and only if no archived name contains two dots in a row, and then recreates every source tree with the same directories and contents, and nothing else |
| ArchiveRoundTrip.OneFileRoundTrip | internal/files/files.go:401-598 | the simplest instance: one file of any contents within the limit, archived and extracted into a root that holds only the archive, is there again |
| Placeholders.CollapseBlanks | internal/webserver/template/template.go:76-81 | the repeated replacement ends, leaves no three newlines in a row, and equals the one-pass cap of every newline run at two |
| Placeholders.SqueezeOnlyDropsNewlines | internal/webserver/template/template.go:74-81 | the cap drops newlines only and leaves no run of three |
| VhostRender.Render | internal/webserver/template/template.go:59-72 | the chain of replace-all passes, the strip and the blank-line cap, as a loop |
| VhostRender.FirstPassIsExact | internal/webserver/processor/processor.go:73-80 | the first pass fills every placeholder of its name and touches nothing else, on every body and for every value |
| VhostRender.ReplaceFills | internal/webserver/processor/processor.go:73-80 | so does every later pass as long as the filled pieces stay apart |
| VhostRender.StripFills | internal/webserver/template/template.go:63-66 | the strip removes exactly the placeholders that have no value, and those inside values, if the filled pieces stay apart; if they do not, it removes more |
| VhostRender.RenderIsSimultaneous | internal/webserver/template/template.go:59-72 | on tidy bodies and calm values the chain equals replacing every placeholder of the body at once, then capping blank lines |
| VhostRender.TidyIsExact | internal/webserver/template/template.go:59-72 | a body is tidy if and only if the chain is a simultaneous substitution for every chain of calm values |
| VhostRender.UntidyBodiesJoin | internal/webserver/template/template.go:50-66 | the smallest counterexamples: with an empty value, the text around a placeholder joins into a new one that is stripped too |
| VhostRender.OrderDoesNotMatter | internal/webserver/template/php.go:16-30 | two chains with the same processors in any order render alike |
| VhostRender.NothingLeftBehind | internal/webserver/template/template.go:63-66 | no {{name}} is left anywhere in the output |
| SiteTemplates.NamesDiffer | internal/webserver/processor/ssl_certificate.go:18-35 | the ten processors have ten different placeholders |
| SiteTemplates.ChainsAreSound | internal/webserver/template/template.go:86-102 | for every site type the chain meets the hypotheses of the theorems above as soon as the context holds no stray braces |
| SiteTemplates.SettingsAreStripped | internal/webserver/processor/settings.go:3-17 | on a tidy body the output is the simultaneous fill with the placeholders inside the settings stripped, for all settings and all other values, if and only if the text after the settings is fenced off |
| VhostTemplates.EveryTypeRenders | internal/webserver/template/template.go:36-72 | for every site type and every calm context, rendering the type's own template is replacing its placeholders at once, line by line, then capping blank lines |
| VhostTemplates.EveryTypeStripsSettings | internal/webserver/processor/settings.go:3-17 | for every site type, whatever the settings hold, the placeholders inside them are stripped, none is expanded and nothing around them is touched |
| VhostTemplates.TemplateIsTidy | internal/webserver/template/templates/wordpress.tmpl:1-70 | every text whose lines hold at most one placeholder, followed by anything but a brace or a name character, is a tidy body, and filling it in is filling in its lines |
| VhostTemplates.TemplateIsFenced | internal/webserver/template/templates/nodejs.tmpl:1-47 | in every such text what follows a placeholder is fenced off |
| ConfigScan.FindIsLeftmost | cmd/auracp/doctor.go:81-89 | what a multi-line pattern finds is its match at the first line start that has one; nothing is found if and only if no line start matches |
| ConfigScan.FindSkips | cmd/auracp/doctor.go:81-89 | a line whose first word is not the key is skipped by the multi-line patterns |
| ConfigScan.FindReads | cmd/auracp/doctor.go:81-89 | a setting line yields exactly its value, whatever follows it |
| Doctor.VhostReadsBack | internal/webserver/template.go:10-150 | in a rendered PHP vhost the first root and the first fastcgi_pass are the site's own, for every option and cache text |
| Doctor.PoolReadsBack | internal/phpruntime/phpruntime.go:175-200 | in a rendered pool the user and listen patterns find the site's own values, for every tuning text |
| Doctor.ScanRecovers | cmd/auracp/doctor.go:195-227 | scanning a rendered vhost recovers exactly user, document root, socket and type |
| Doctor.DoctorSeesExactlyTheDrift | cmd/auracp/doctor.go:420-449 | the pool check reports exactly the differences between the user and domain of the vhost and those of the pool: nothing, one user drift, one socket drift, or both |
| Doctor.HealthyMeansOneMatchingPool | cmd/auracp/doctor.go:234-297 | a PHP site is reported healthy, certificate aside, if and only if exactly one PHP version holds a pool for it and that pool runs as the vhost's user, whatever the tuning of each pool |
| Doctor.PoolsReported | cmd/auracp/doctor.go:234-297 | the whole report of a PHP site in order: no pool, or more than one with their versions, then another user than the vhost's by the first of them, then the certificate's problems |
| PipelineVhost.PipelineText | internal/site/creator/creator.go:170-170 | what the create pipeline writes for a site of any type is the type's template with the values of the processors, line by line, and no blank line is dropped |
| PipelineVhost.PipelineVhostReadsBack | cmd/auracp/doctor.go:195-227 | scanning the vhost the create pipeline writes, with and without a certificate: for PHP and WordPress user, document root, socket and type; for Node.js and Python user, root and a proxy; for static sites user and root; for a reverse proxy no user at all |
| PipelineVhost.PipelineDriftIsSeen | cmd/auracp/doctor.go:420-449 | against the pool of any user and domain the doctor reports exactly the differences from the vhost the create pipeline wrote for a PHP or WordPress site |
| VhostReadBack.EveryTypeReadsBack | internal/webserver/processor/ssl_certificate.go:18-35 | for all six types, read back from the rendered text in terms of the context alone: server_name with the www name exactly when there is one dot, root, ssl_certificate and ssl_certificate_key (absent without paths), access_log and error_log, the PHP socket, and the backend, http://127.0.0.1 with the port's decimal digits or the given URL |
| VhostReadBack.RenderedLines | internal/webserver/template/template.go:36-81 | for every type the rendered text is the template's lines filled in: the blank-line cap never drops a line |
| PipelineVhost.PipelineVhostSays | internal/site/creator/spec.go:79-100 | the same for what the create pipeline writes, on literal paths below /home/<user>, /etc/auracp/ssl and /run/php-fpm |
| PipelineVhost.PipelineHealth | cmd/auracp/doctor.go:234-297 | a created site without PHP is healthy, certificate aside, if and only if it is no reverse proxy and its document root is a directory |
| PipelineVhost.PipelinePhpHealth | cmd/auracp/doctor.go:234-297 | a created PHP or WordPress site is healthy, certificate aside, if and only if exactly one PHP version holds a pool for it and that pool runs as its user |
| PanelVhost.PanelVhostSays | internal/webserver/template.go:10-80 | the panel's own vhost of a PHP site read back, whatever is switched on: server_name, certificate and key, both logs, and the password file exactly when basic auth is on |
| Doctor.SafeNameIsAWord | internal/webserver/webserver.go:97-97 | in the name of the bot variable dots and hyphens of the domain become underscores and nothing else changes, so it is a word |
| Doctor.PoolIsTuned | internal/phpruntime/phpruntime.go:175-200 | each of the six tunable values stands on the line of its own directive in the pool |
| Doctor.SocketlessSite | cmd/auracp/doctor.go:195-297 | a scanned site without a socket: its type by whether some line starts with proxy_pass; each problem exactly when it applies; healthy, certificate aside, if and only if its root lies below a home and is a directory |
| Doctor.Site.ScanOne | cmd/auracp/doctor.go:195-227 | the record's fields are filled in step by step |
| Doctor.Site.CheckPool | cmd/auracp/doctor.go:420-449 | problems are appended step by step |
| Doctor.Site.FindPoolFiles | cmd/auracp/doctor.go:368-390 | the loop keeps exactly the version directories that hold a pool, in order |
| Doctor.PanelPoolsAreFound | cmd/auracp/doctor.go:368-414 | every version directory in which the panel writes a pool is among those the doctor looks into |
| Doctor.VersionNames | cmd/auracp/doctor.go:392-414 | a directory is taken for a PHP version if and only if its name is two runs of digits with a dot between them |
| Doctor.Site.CheckSite | cmd/auracp/doctor.go:234-297 | the whole check, given the certificate problems; the record is ok exactly when no problem was appended |
| RateLimiter.Limiter.Prune | internal/api/middleware.go:163-168 | in-place compaction leaves exactly the attempts after the cutoff, in order |
| RateLimiter.Limiter.Allow | internal/api/middleware.go:158-175 | the verdict and the history of the reference limiter; the kept slice is the full accepted history filtered to the window ending now |
| RateLimiter.WindowBound | internal/api/middleware.go:158-175 | a history in which every attempt was accepted below the limit has at most max attempts in any half-open interval of the window's length |
| RateLimiter.RefusedMeansFull | internal/api/middleware.go:169-172 | an attempt is refused exactly when max accepted ones lie in the window ending now, and there are never more |
| RateLimiter.AtMostMaxPerWindow | internal/api/middleware.go:147-175 | after any run with a non-decreasing clock no key has more than max accepted attempts in any half-open window, open on either side |
| Certificates.Manager.ObtainWithKidHeal | internal/acme/acme.go:217-241 | the second call decides after a key-identifier error, a rebuilt client and a re-armed challenge; otherwise the first does |
| Certificates.Manager.SaveIssuedCert | internal/acme/acme.go:269-298 | files first, then the row; any failure leaves the row as it was |
| Certificates.Manager.Issue | internal/acme/acme.go:136-203 | marking the row, then the attempt |
| Certificates.Manager.Attempt | internal/acme/acme.go:151-203 | challenge set-up, obtaining and recording, by outcome |
| Certificates.Manager.EnsureCert | internal/acme/acme.go:101-110 | a fresh certificate is left alone, otherwise one issuance |
| Certificates.Manager.CertificatesExpiringWithin | internal/store/certificates.go:67-83 | exactly the due rows, each once, the earliest to expire first |
| Certificates.Manager.RenewDue | internal/acme/acme.go:344-358 | a tick gives every due row exactly one issuance of its own and leaves every other row as it is |
| Certificates.UpsertKeeps | internal/store/certificates.go:19-34 | the merging upsert never erases a path or a date and touches no other row |
| Certificates.IssuanceKeeps | internal/acme/acme.go:136-298 | one issuance keeps every set field and every other row, counts one attempt if it started, and calls Obtain at most twice, twice only after a key-identifier error |
| Certificates.RunKeeps | internal/acme/acme.go:101-298 | over any run without a deletion of the row: paths and dates once set stay set, the paths are the domain's .crt and .key, an issued row has both, attempts grows by one per started issuance |
| Certificates.IssuanceEnds | internal/acme/acme.go:136-298 | every way an issuance ends: how often a certificate is asked for, when it succeeds, and the row it leaves; after a key-identifier error with a rebuilt client and a re-armed challenge a second success and successful writes end in an issued row with both paths |
| Certificates.DueIsNotFresh | internal/store/certificates.go:67-83 | a due row is never called fresh and stays due until a new expiry is stored |
| Certificates.WindowIsExact | internal/acme/acme.go:101-110 | a dated row is due exactly with at most thirty days less one second left, fresh exactly with more than thirty days, never both |
| Certificates.EnsureIsExact | internal/acme/acme.go:101-110 | EnsureCert leaves a row alone if and only if it is issued with more than thirty days left; otherwise it is one issuance; when it succeeds the row is issued with the domain's two paths |
| Certificates.WindowIsCovered | internal/acme/acme.go:344-358 | a tick issues for a dated row exactly once inside that window, counting one attempt if it started, and leaves the row alone outside it |
| Certificates.PickedMeansDated | internal/store/certificates.go:67-83 | a tick picks a row at some time if and only if the row carries an expiry date |
| Certificates.DatedByIssuanceOnly | internal/acme/acme.go:269-298 | an undated row gets a date if and only if an issuance succeeds with a readable leaf |
| Certificates.FailedFirstIssuanceIsNeverRetried | internal/acme/acme.go:344-358 | a domain whose issuances have all failed is picked by no renewal tick at any time |
| Versions.CompareVersions | internal/updater/updater.go:181-208 | the loop ends and equals zero-padded lexicographic comparison of the component numbers, for any parser that reads the empty string as zero |
| Versions.LexicographicMeans | internal/updater/updater.go:177-180 | the result says which side is smaller at the first differing component, or that none differs |
| Versions.TotalPreorder | internal/updater/updater.go:177-200 | the comparison is antisymmetric in sign, total and transitive, and zero exactly for equal padded versions |
| Versions.NumbersAreComponents | internal/updater/updater.go:202-208 | the numbers the loop compares are those of the parts between the dots, missing and empty parts counting as zero |
| Totp.PadRestores | internal/auth/totp.go:70-76 | padding a stored secret restores exactly the RFC 4648 encoding it was cut from |
| Totp.EncodeIsStandard | internal/auth/totp.go:18-24 | the encoding bit by bit: letters of the RFC 4648 alphabet whose five-bit values spell the bytes' bits and up to four zero bits, then equals signs up to a whole group of eight |
| Totp.DecodeEncode | internal/auth/totp.go:54-58 | decoding undoes encoding for every byte string |
| Totp.SecretRoundTrip | internal/auth/totp.go:18-58 | a stored secret yields the original key for every byte string |
| Totp.Truncate | internal/auth/totp.go:64-66 | the offset stays in bounds for any 20-byte hash and the value is below 2^31 |
| Totp.TruncateReadsBits | internal/auth/totp.go:64-66 | the value is the last 31 of the 32 bits of the four bytes at the offset, which is the low four bits of the last byte |
| Totp.Code | internal/auth/totp.go:54-68 | a code is exactly six decimal digits |
| Totp.DigitsReadBack | internal/auth/totp.go:67-67 | the printed digits determine the value |
| Totp.VerifyTotp | internal/auth/totp.go:39-52 | accepted exactly when the input is the code of the previous, current or next time step |
| Text.TrimSpaceIsExact | internal/auth/totp.go:40-40 | trimming an input takes the white space off both ends, all of it and nothing else |
| Totp.EnrolledKeyIsUsed | internal/auth/totp.go:18-68 | the code of an enrolled secret, bit by bit: the key is the original one, the message holds the 64 bits of the counter, and the digits print the last 31 of the 32 bits of the four bytes at the offset given by the low four bits of the last byte, modulo a million |
| LogTail.TailIsASuffix | internal/logs/logs.go:47-63 | the tail is the last n of all lines when the file fits the budget, otherwise of the lines that begin strictly after the offset: exactly n of them, or all if there are fewer or n is not positive |
| LogTail.SuffixOfLines | internal/logs/logs.go:47-63 | the tail is always a suffix of the whole file's line list, at most n long |
| LogTail.DroppedLineIsWhole | internal/logs/logs.go:57-59 | the first line of the chunk, always dropped, is a complete line of the file if and only if the byte before the offset is a newline |
| LogTail.LineAtTheOffsetIsDropped | internal/logs/logs.go:57-59 | in every file a complete line that begins exactly at the offset is dropped with the partial one |

## Left out

Contracts that say less than the code or its documentation promises:

- VhostInterleaving.InterleavedSwapsAreSafe: false of the code without its conditions. A site whose link rests on the staging file is not swapped again, which `OneCallIsSafeExactly` shows to be exact, and a rollback, a commit and a removal succeed in unlinking the link, which `LeftLinkDangles` shows to be needed. No two calls run for one domain; validity is a property of each entry's bytes, as opposed to the arbitrary whole-set test of the sequential theorems.
- VhostRender.TidyIsExact: the exactness is over values without two opening braces in a row; such values are covered for the settings only.
- ProvisioningRuns.RunsAreDriftFree: runs whose deletes are clean in the sense of `DriftExactlyAfterUncleanDelete`; operator-written vhosts (`vhost_override`) and changes of the document root are outside.
- ProvisioningDrift.DriftExactlyAfterUncleanDelete: a valid user name that is not taken is given; without one no second site could be created.
- ArchiveRoundTrip.UnzipUndoesZip: sources have distinct base names, none equal to the archive's own name; extraction meets no input or output error; trees hold no symlinks. The order of the walk is arbitrary, so the code's lexical order is covered.
- FileManager.Manager.Unzip: the archive is taken as read before the first entry is written, so an entry that overwrites the archive itself while it is being read is not represented.
- Archive.UnzipStaysInside: a document root that is itself a regular file is excluded.
- RateLimiter.Limiter.Allow: each key's slice is kept as a sequence and loaded into an array for the in-place pruning, so sharing of backing arrays between calls is not represented; the mutex makes calls sequential; the window is positive.
- Totp.DecodeEncode: line breaks inside a secret, which the standard decoder skips, are not modelled.
- VhostReadBack.EveryTypeReadsBack: context fields are one line without semicolon or opening brace and do not start with white space; settings are one line that sets none of the directives read; log directory, document root and, for PHP, the socket are set, as `RenderContext` always sets them.
- PipelineVhost.PipelineVhostReadsBack: an upstream holds no semicolon, line break or opening brace; an allocated port is positive.
- PanelVhost.PanelVhostSays: certificate and key path are given together; the absences are stated for a cache lifetime of one line. The panel's vhosts of the other site types are not written out.
- ArchivePlanting.ExtractionPlantsExactly: nothing of the forest exists beforehand, and no call fails. Which entries an archive holds, and whether it can be read to its end, is given.
- ProvisioningAnswers.DeleteEnds: the unlinks of a delete, whose errors the code ignores, succeed.
- Certificates.IssuanceEnds: whether the re-armed challenge after a key-identifier error is the one the first call used is not represented: the code always re-arms HTTP-01 (internal/acme/acme.go:231-239), which is a call that may fail.
- Certificates.Manager.RenewDue: the jitter between two issuances of a tick is not modelled; time stands still during a tick.
- Doctor.VhostReadsBack: the document root is the default one and certificate paths hold no line breaks; template words are taken as printed on one line.
- Doctor.HealthyMeansOneMatchingPool: the certificate check contributes a given list of problems; reading certificates is not modelled.
- Paths.DomainChars: the check's case-insensitivity is modelled for ASCII letters only.
- Certificates.RunKeeps: calls run one after the other; the client set-up, the wire protocol and the text of error hints are parameters.

Parts of the repository that are not modelled:

- The older create and delete in internal/site/site.go: the newer pipeline replaces them; only `ReapplyRuntime` is used.
- Process crashes in the middle of an operation, dry-run mode, and two swaps of the same domain at once.
- The older nginx templates for types other than PHP (the six of the create pipeline are modelled), the panel and catch-all vhosts, systemd units and logrotate entries.
- File ownership and permission bits, directory listings and their sort, the editor, `Touch`, `Mkdir` and `Chmod`: they share the path resolution proved here.
- Home directories beyond their top-level entries; what purging a PHP package leaves is an approximation (a version directory stays while it holds pools).
- HTTP handlers, sessions, roles, cron, wp-cli, notifications, the installer and the web interface.
- TLS, ACME and Cloudflare traffic, HMAC-SHA1, bcrypt and SQLite themselves: outcomes, a hash parameter, and maps with a unique domain.
- URL parsing: an upstream arrives parsed. Unicode case folding and white space beyond ASCII.
