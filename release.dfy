/** src/websdk/repo/data/release.rs (and its twin src/data/release.rs):
    what a provider reports about one release of an app. */
module Releases {
  import opened Wrappers

  datatype AssetData = AssetData(fileName: string, fileType: string, downloadUrl: string)

  datatype ReleaseData = ReleaseData(
    versionNumber: string,
    changelog: string,
    assets: seq<AssetData>,
    extra: Option<map<string, string>>)
}
