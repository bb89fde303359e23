/** The manifest-update rule of `main()` in the release script: resolve the inputs,
    take the early exits in their fixed order, build a new version entry, update four
    fields of the first app in place while tracking whether anything changed, insert or
    replace the head of its version history, and decide whether to write the file. */
module UpdateRepoJson {
  import opened Wrappers
  import opened PyStr
  import opened RepoJson

  /** The command-line flags as argparse leaves them: `None` when a flag is not given. */
  datatype Args = Args(releaseTag: Option<string>, catboxUrl: Option<string>,
                       releaseNotes: Option<string>, size: Option<int>)

  /** The environment variables RELEASE_TAG, CATBOX_URL and RELEASE_NOTES. */
  datatype Env = Env(releaseTag: Option<string>, catboxUrl: Option<string>, releaseNotes: Option<string>)

  /** The values the script works with once flags and environment are combined. */
  datatype Inputs = Inputs(release: Option<string>, catbox: Option<string>,
                           notes: Option<string>, size: Option<int>)

  /** Why a run stopped with a non-zero exit status. */
  datatype Failure = ManifestMissing | NoApps | SizeMissing

  /** How a run ends. `Unchanged` is the "no changes required" report, which leaves the
      file alone; `Written` means the manifest was serialised back to disk. */
  datatype Outcome = NoOp | Written | Unchanged | Failed(reason: Failure) {

    /** The process exit status: every failure exits 1, everything else 0. */
    function ExitCode(): (code: int)
      ensures code == 0 || code == 1
      ensures code == 1 <==> Failed?
    {
      if Failed? then 1 else 0
    }
  }

  /** `flag or env`: the flag wins unless it is missing or empty, in which case the
      environment variable is used as it is (possibly absent or empty itself). */
  function PreferFlag(flag: Option<string>, env: Option<string>): (r: Option<string>)
    ensures Truthy(flag) ==> r == flag
    ensures !Truthy(flag) ==> r == env
    ensures Truthy(r) <==> Truthy(flag) || Truthy(env)
  {
    if Truthy(flag) then flag else env
  }

  /** Input precedence: flags over environment for the three strings; the size comes
      from its flag alone and has no environment fallback. */
  function ResolveInputs(args: Args, env: Env): (i: Inputs)
    ensures i.size == args.size
    ensures Truthy(i.release) <==> Truthy(args.releaseTag) || Truthy(env.releaseTag)
    ensures Truthy(i.catbox) <==> Truthy(args.catboxUrl) || Truthy(env.catboxUrl)
    ensures Truthy(i.notes) <==> Truthy(args.releaseNotes) || Truthy(env.releaseNotes)
    ensures i.release == PreferFlag(args.releaseTag, env.releaseTag)
    ensures i.catbox == PreferFlag(args.catboxUrl, env.catboxUrl)
    ensures i.notes == PreferFlag(args.releaseNotes, env.releaseNotes)
  {
    Inputs(PreferFlag(args.releaseTag, env.releaseTag),
           PreferFlag(args.catboxUrl, env.catboxUrl),
           PreferFlag(args.releaseNotes, env.releaseNotes),
           args.size)
  }

  /** The download URL to publish: the given URL when it is non-empty, else the app's
      current URL when that is non-empty, else the empty string. */
  function NewDownload(catbox: Option<string>, current: Option<string>): (r: string)
    ensures Truthy(catbox) ==> Some(r) == catbox
    ensures !Truthy(catbox) && Truthy(current) ==> Some(r) == current
    ensures r == "" <==> !Truthy(catbox) && !Truthy(current)
  {
    if Truthy(catbox) then catbox.value
    else if Truthy(current) then current.value
    else ""
  }

  // The sentence of the header, built in `Header` only. Its first word is a separate
  // literal only so that `HeaderFramed` can read off the first character.
  const HeaderStart := "This" + " version includes the ApolloICA tweak version: "
  const HeaderEnd := " patched with Liquid Glass support."

  /** The fixed header sentence that names the release. */
  function Header(release: string): string {
    HeaderStart + release + HeaderEnd
  }

  /** The header, followed by the release notes when they are non-empty. */
  function DescriptionParts(release: string, notes: Option<string>): seq<string> {
    [Header(release)] + (if Truthy(notes) then [notes.value] else [])
  }

  /** The new entry's `localizedDescription`: the parts joined by a blank line, then
      stripped. What that comes to: the header verbatim, then, if the notes have any
      non-whitespace content, a blank line and the notes with only their trailing
      whitespace removed. */
  function Describe(release: string, notes: Option<string>): (r: string)
    ensures r == Header(release) + if Truthy(notes) && TrimEnd(notes.value) != ""
                                   then "\n\n" + TrimEnd(notes.value) else ""
  {
    HeaderFramed(release);
    StripJoined(Header(release), notes);
    Strip(Join("\n\n", DescriptionParts(release, notes)))
  }

  /** The description's join and strip, for any header that neither starts nor ends
      with whitespace. */
  lemma StripJoined(h: string, notes: Option<string>)
    requires |h| > 0 && !IsSpace(h[0]) && !IsSpace(h[|h| - 1])
    ensures Strip(Join("\n\n", [h] + if Truthy(notes) then [notes.value] else []))
         == h + if Truthy(notes) && TrimEnd(notes.value) != "" then "\n\n" + TrimEnd(notes.value) else ""
  {
    if Truthy(notes) {
      assert [h] + [notes.value] == [h, notes.value];
      JoinTwo("\n\n", h, notes.value);
      StripAfterFramed(h, "\n\n", notes.value);
    } else {
      assert [h] + [] == [h];
      StripFramed(h);
    }
  }

  /** The header starts with "T" and ends with ".", neither of them whitespace. */
  lemma HeaderFramed(release: string)
    ensures var h := Header(release); |h| > 0 && !IsSpace(h[0]) && !IsSpace(h[|h| - 1])
  {
    var h := Header(release);
    assert h == HeaderStart + (release + HeaderEnd);
    assert h[0] == HeaderStart[0] == 'T';
    assert h[|h| - 1] == HeaderEnd[|HeaderEnd| - 1] == '.';
  }

  /** The current topmost entry of `versions`, if there is one. */
  function Head(versions: Option<seq<VersionEntry>>): (prev: Option<VersionEntry>)
    ensures prev.Some? <==> versions.Some? && |versions.value| > 0
    ensures prev.Some? ==> prev.value == versions.value[0]
  {
    if versions.Some? && |versions.value| > 0 then Some(versions.value[0]) else None
  }

  /** The version record the run publishes. Its build version is always "1"; it has a
      `minOSVersion` exactly when the previous head had a non-empty one, and then the
      same value. */
  function NewEntry(release: string, download: string, size: int, date: string,
                    description: string, prev: Option<VersionEntry>): (e: VersionEntry)
    ensures e.version == Some(release) && e.buildVersion == Some("1") && e.size == Some(size)
    ensures e.downloadURL == Some(download) && e.date == Some(date)
    ensures e.localizedDescription == Some(description) && e.others == map[]
    ensures e.minOSVersion.Some? <==> prev.Some? && Truthy(prev.value.minOSVersion)
    ensures e.minOSVersion.Some? ==> e.minOSVersion == prev.value.minOSVersion
  {
    var minOS := if prev.Some? && Truthy(prev.value.minOSVersion) then prev.value.minOSVersion else None;
    VersionEntry(Some(download), Some(size), Some(release), Some("1"), Some(date), Some(description), minOS, map[])
  }

  /** True when the current head of `versions` already carries `release`. */
  predicate ReplacesHead(versions: Option<seq<VersionEntry>>, release: string) {
    versions.Some? && |versions.value| > 0 && versions.value[0].version == Some(release)
  }

  /** The version history after the run: the new entry always ends up on top; it
      replaces a head that already carries the release and otherwise goes in front of
      the old history, which follows unchanged and in order. */
  function NextVersions(versions: Option<seq<VersionEntry>>, release: string, entry: VersionEntry)
    : (r: seq<VersionEntry>)
    ensures |r| > 0 && r[0] == entry
    ensures versions.None? ==> r == [entry]
    ensures versions.Some? && !ReplacesHead(versions, release)
            ==> |r| == |versions.value| + 1 && r[1..] == versions.value
    ensures ReplacesHead(versions, release)
            ==> |r| == |versions.value| && r[1..] == versions.value[1..]
  {
    match versions
    case None => [entry]
    case Some(vs) =>
      var top := if |vs| > 0 then vs[0].version else None;
      if top != Some(release) then [entry] + vs else [entry] + vs[1..]
  }

  /** Running again with the same release replaces the entry the first run put on top:
      the history keeps its length and everything below the head. */
  lemma RerunReplacesHead(versions: Option<seq<VersionEntry>>, release: string,
                          first: VersionEntry, second: VersionEntry)
    requires first.version == Some(release)
    ensures var once := NextVersions(versions, release, first);
            var twice := NextVersions(Some(once), release, second);
            |twice| == |once| && twice == [second] + once[1..]
  {
  }

  /** A non-empty `minOSVersion` on the head survives every later run: the new head
      carries the same value. */
  lemma MinOSVersionPersists(versions: Option<seq<VersionEntry>>, release: string, download: string,
                             size: int, date: string, description: string)
    requires Head(versions).Some? && Truthy(Head(versions).value.minOSVersion)
    ensures var next := NextVersions(versions, release,
                                     NewEntry(release, download, size, date, description, Head(versions)));
            Head(Some(next)).value.minOSVersion == Head(versions).value.minOSVersion
  {
  }

  /** The first in-place step: each of `version`, `versionDate`, `downloadURL` and
      `size` is compared with its new value and assigned when it differs. `changed`
      is set exactly when at least one of them differed. */
  method UpdateFields(app: App, release: string, date: string, download: string, size: int)
    returns (changed: bool)
    modifies app
    ensures app.version == Some(release) && app.versionDate == Some(date)
    ensures app.downloadURL == Some(download) && app.size == Some(size)
    ensures app.versions == old(app.versions) && app.others == old(app.others)
    ensures changed <==> old(app.version) != Some(release) || old(app.versionDate) != Some(date)
                         || old(app.downloadURL) != Some(download) || old(app.size) != Some(size)
  {
    changed := false;
    if app.version != Some(release) {
      app.version := Some(release);
      changed := true;
    }
    if app.versionDate != Some(date) {
      app.versionDate := Some(date);
      changed := true;
    }
    if app.downloadURL != Some(download) {
      app.downloadURL := Some(download);
      changed := true;
    }
    if app.size != Some(size) {
      app.size := Some(size);
      changed := true;
    }
  }

  /** The second in-place step: the new entry goes in front of the history, or replaces
      its head when that already carries the release. Every branch marks the manifest
      dirty. */
  method UpdateVersions(app: App, release: string, entry: VersionEntry) returns (changed: bool)
    modifies app
    ensures changed
    ensures app.versions == Some(NextVersions(old(app.versions), release, entry))
    ensures app.version == old(app.version) && app.versionDate == old(app.versionDate)
    ensures app.downloadURL == old(app.downloadURL) && app.size == old(app.size)
    ensures app.others == old(app.others)
  {
    match app.versions {
      case None =>
        app.versions := Some([entry]);
        changed := true;
      case Some(vs) =>
        var top := if |vs| > 0 then vs[0].version else None;
        if top != Some(release) {
          app.versions := Some([entry] + vs);
          changed := true;
        } else {
          app.versions := Some([entry] + vs[1..]);
          changed := true;
        }
    }
  }

  /** Both in-place steps with the shared dirty flag: since the history step always
      assigns, the flag always ends up set. */
  method ApplyUpdate(app: App, release: string, download: string, size: int, date: string,
                     entry: VersionEntry) returns (changed: bool)
    modifies app
    ensures changed
    ensures app.version == Some(release) && app.versionDate == Some(date)
    ensures app.downloadURL == Some(download) && app.size == Some(size)
    ensures app.versions == Some(NextVersions(old(app.versions), release, entry))
    ensures app.others == old(app.others)
  {
    changed := UpdateFields(app, release, date, download, size);
    var historyChanged := UpdateVersions(app, release, entry);
    changed := changed || historyChanged;
  }

  /** One run of the script. `data` is the parsed `repo.json`, or null when the file
      does not exist; `now` is the timestamp the script reads from the clock. */
  method Run(args: Args, env: Env, data: Manifest?, now: string) returns (outcome: Outcome)
    requires data != null ==> data.Valid()
    modifies if data != null && |data.apps| > 0 then {data.apps[0]} else {}
    ensures outcome != Unchanged
    ensures data == null ==> outcome == Failed(ManifestMissing)
    ensures data != null ==>
              var i := ResolveInputs(args, env);
              if !Truthy(i.release) then outcome == NoOp
              else if |data.apps| == 0 then outcome == Failed(NoApps)
              else if i.size.None? then outcome == Failed(SizeMissing)
              else outcome == Written
    ensures data != null && outcome != Written
            ==> forall k :: 0 <= k < |data.apps| ==> unchanged(data.apps[k])
    ensures data != null ==> forall k :: 1 <= k < |data.apps| ==> unchanged(data.apps[k])
    ensures outcome == Written ==>
              data != null && |data.apps| > 0 &&
              var i := ResolveInputs(args, env);
              var app := data.apps[0];
              var download := NewDownload(i.catbox, old(app.downloadURL));
              var entry := NewEntry(i.release.value, download, i.size.value, now,
                                    Describe(i.release.value, i.notes), Head(old(app.versions)));
              && app.version == i.release
              && app.versionDate == Some(now)
              && app.downloadURL == Some(download)
              && app.size == i.size
              && app.versions == Some(NextVersions(old(app.versions), i.release.value, entry))
              && app.others == old(app.others)
  {
    var inputs := ResolveInputs(args, env);
    if data == null {
      return Failed(ManifestMissing);
    }
    if !Truthy(inputs.release) {
      return NoOp;
    }
    if |data.apps| == 0 {
      return Failed(NoApps);
    }
    var release := inputs.release.value;
    var app := data.apps[0];
    var newDownload := NewDownload(inputs.catbox, app.downloadURL);
    if inputs.size.None? {
      return Failed(SizeMissing);
    }
    var newSize := inputs.size.value;
    var dateIso := now;
    var newLocalized := Describe(release, inputs.notes);
    var prev := Head(app.versions);
    var newEntry := NewEntry(release, newDownload, newSize, dateIso, newLocalized, prev);

    var changed := ApplyUpdate(app, release, newDownload, newSize, dateIso, newEntry);

    if changed {
      outcome := Written;
    } else {
      outcome := Unchanged;
    }
  }

  /** A caller's view of the contract, on a manifest whose single app holds one entry
      for "1.0": publishing "1.1" puts a new entry on top and keeps the old one below. */
  method PublishNextRelease() {
    var first := VersionEntry(Some("old"), Some(10), Some("1.0"), Some("1"),
                              Some("2024-01-01T00:00:00+00:00"), Some("old desc"), None, map[]);
    var app := new App(Some("1.0"), None, Some("old"), Some(10), Some([first]), map[]);
    var data := new Manifest([app], map[]);
    var outcome := Run(Args(Some("1.1"), Some("https://x/y"), None, Some(999)),
                       Env(None, None, None), data, "2024-06-01T12:00:00+00:00");
    assert outcome == Written && outcome.ExitCode() == 0;
    assert app.version == Some("1.1") && app.downloadURL == Some("https://x/y") && app.size == Some(999);
    var vs := app.versions.value;
    assert |vs| == 2 && vs[0].version == Some("1.1") && vs[1] == first;
  }
}
