/** The shape of `repo.json` as the updater sees it: a manifest whose `apps` list holds
    app objects, each with an optional history of version entries, most recent first.
    The app keys and the two entry keys the updater reads (`version`, `minOSVersion`)
    are optional because it reads them with `dict.get`; the other entry keys are
    optional because an existing entry may lack them. For every optional field, `None`
    stands both for an absent key and for a JSON `null`; nothing the updater does
    depends on the difference. Keys the updater neither reads nor writes are kept in
    `others`, as key to JSON text; `others` never holds one of the modelled key names. */
module RepoJson {
  import opened Wrappers

  /** One element of an app's `versions` list. */
  datatype VersionEntry = VersionEntry(
    downloadURL: Option<string>,
    size: Option<int>,
    version: Option<string>,
    buildVersion: Option<string>,
    date: Option<string>,
    localizedDescription: Option<string>,
    minOSVersion: Option<string>,
    others: map<string, string>)

  /** An element of `apps`: a JSON object that the updater changes in place. */
  class App {
    var version: Option<string>
    var versionDate: Option<string>
    var downloadURL: Option<string>
    var size: Option<int>
    var versions: Option<seq<VersionEntry>>
    var others: map<string, string>

    constructor (version: Option<string>, versionDate: Option<string>, downloadURL: Option<string>,
                 size: Option<int>, versions: Option<seq<VersionEntry>>, others: map<string, string>)
      ensures this.version == version && this.versionDate == versionDate
      ensures this.downloadURL == downloadURL && this.size == size
      ensures this.versions == versions && this.others == others
    {
      this.version := version;
      this.versionDate := versionDate;
      this.downloadURL := downloadURL;
      this.size := size;
      this.versions := versions;
      this.others := others;
    }
  }

  /** The whole document. An absent or `null` `apps` key reads as the empty list
      (`data.get('apps') or []`). */
  class Manifest {
    var apps: seq<App>
    var others: map<string, string>

    /** A parsed JSON document shares no objects: distinct positions hold distinct apps. */
    ghost predicate Valid()
      reads this
    {
      forall i, j :: 0 <= i < j < |apps| ==> apps[i] != apps[j]
    }

    constructor (apps: seq<App>, others: map<string, string>)
      requires forall i, j :: 0 <= i < j < |apps| ==> apps[i] != apps[j]
      ensures Valid() && this.apps == apps && this.others == others
    {
      this.apps := apps;
      this.others := others;
    }
  }
}
