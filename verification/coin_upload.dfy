/**
 * The admin screen that attaches an uploaded 3D model to a catalog
 * milestone: file-name validation, the busy marker, and the upsert of the
 * milestone's CoinAsset record. The upload service and the cached asset list
 * are inputs.
 */
module CoinUpload {
  import opened Wrappers
  import opened Text
  import opened Records
  import opened EntityStore
  import opened CoinMilestones
  import LegacyMilestones

  /** The upload screen is shown only to a signed-in admin. */
  predicate IsAdmin(user: Option<Record>) {
    user.Some? && Get(user.value, "role") == Str("admin")
  }

  lemma MockUserIsAdmin()
    ensures IsAdmin(Some(MockUser))
  {
  }

  /** A model file is accepted when its name ends in ".glb", in any letter case. */
  predicate IsGlbName(name: string) {
    EndsWith(ToLower(name), ".glb")
  }

  lemma GlbNameCaseInsensitive(name: string)
    ensures IsGlbName(name) <==> IsGlbName(ToLower(name))
  {
    assert ToLower(ToLower(name)) == ToLower(name);
  }

  /** What the upload writes: an update of the existing asset's URL and name,
      or a new asset. */
  datatype Upsert = UpdateAsset(assetId: Value, patch: Record) | CreateAsset(data: Record)

  function UpsertFor(assets: seq<Record>, milestoneId: string, milestoneName: string, fileUrl: string): (u: Upsert)
    ensures u.UpdateAsset? <==> LegacyMilestones.AssetFor(assets, milestoneId).Some?
    ensures u.UpdateAsset? ==>
      u.assetId == Get(LegacyMilestones.AssetFor(assets, milestoneId).value, "id") &&
      u.patch == map["glb_url" := Str(fileUrl), "milestone_name" := Str(milestoneName)]
    ensures u.CreateAsset? ==>
      u.data == map["milestone_id" := Str(milestoneId), "glb_url" := Str(fileUrl), "milestone_name" := Str(milestoneName)]
  {
    var existing := LegacyMilestones.AssetFor(assets, milestoneId);
    if existing.Some? then
      UpdateAsset(Get(existing.value, "id"), map["glb_url" := Str(fileUrl), "milestone_name" := Str(milestoneName)])
    else
      CreateAsset(map["milestone_id" := Str(milestoneId), "glb_url" := Str(fileUrl), "milestone_name" := Str(milestoneName)])
  }

  /** After an upload for a milestone that had no asset, the new asset is the one shown for it. */
  lemma CreatedAssetIsShown(assets: seq<Record>, milestoneId: string, milestoneName: string, fileUrl: string,
                            freshId: string, now: string)
    requires LegacyMilestones.AssetFor(assets, milestoneId).None?
    ensures var created := NewItem(UpsertFor(assets, milestoneId, milestoneName, fileUrl).data, freshId, now);
      LegacyMilestones.AssetFor(assets + [created], milestoneId) == Some(created) &&
      Get(created, "glb_url") == Str(fileUrl)
  {
    var u := UpsertFor(assets, milestoneId, milestoneName, fileUrl);
    assert u.CreateAsset?;
    NewAssetFields(milestoneId, milestoneName, fileUrl, freshId, now);
    FirstMatchAppended(assets, NewItem(u.data, freshId, now), milestoneId);
  }

  /** The created asset names the milestone and carries the new URL. */
  lemma NewAssetFields(milestoneId: string, milestoneName: string, fileUrl: string, freshId: string, now: string)
    ensures var data := map["milestone_id" := Str(milestoneId), "glb_url" := Str(fileUrl),
                             "milestone_name" := Str(milestoneName)];
      Get(NewItem(data, freshId, now), "milestone_id") == Str(milestoneId) &&
      Get(NewItem(data, freshId, now), "glb_url") == Str(fileUrl)
  {
    var data := map["milestone_id" := Str(milestoneId), "glb_url" := Str(fileUrl),
                    "milestone_name" := Str(milestoneName)];
    assert "milestone_id" in data && "glb_url" in data;
  }

  /** An asset appended to a list with no asset for the milestone is the one found for it. */
  lemma FirstMatchAppended(assets: seq<Record>, x: Record, milestoneId: string)
    requires LegacyMilestones.AssetFor(assets, milestoneId).None?
    requires Get(x, "milestone_id") == Str(milestoneId)
    ensures LegacyMilestones.AssetFor(assets + [x], milestoneId) == Some(x)
  {
    assert x in assets + [x];
    var r := LegacyMilestones.AssetFor(assets + [x], milestoneId);
    assert r.value in assets + [x];
    assert r.value !in assets;
  }

  /** What choosing a file led to. */
  datatype Selection = NoFile | NotGlb | StartUpload(milestoneId: string, milestoneName: string)

  const NotGlbMessage := "Please upload a .glb file"

  class UploadPage {
    const coinAssets: EntityMethods
    var uploadingId: Option<string>

    constructor(coinAssets: EntityMethods)
      ensures this.coinAssets == coinAssets && uploadingId == None
    {
      this.coinAssets := coinAssets;
      uploadingId := None;
    }

    /** No file does nothing; a name not ending in ".glb" is refused with an
        alert; a model file marks the milestone busy and starts its upload. */
    method HandleFileSelect(milestone: Milestone, fileName: Option<string>) returns (selection: Selection)
      modifies this
      ensures fileName.None? ==> selection == NoFile && uploadingId == old(uploadingId)
      ensures fileName.Some? && !IsGlbName(fileName.value) ==> selection == NotGlb && uploadingId == old(uploadingId)
      ensures fileName.Some? && IsGlbName(fileName.value) ==>
        selection == StartUpload(milestone.id, milestone.name) && uploadingId == Some(milestone.id)
    {
      if fileName.None? {
        return NoFile;
      }
      if !IsGlbName(fileName.value) {
        return NotGlb;
      }
      uploadingId := Some(milestone.id);
      selection := StartUpload(milestone.id, milestone.name);
    }

    /** The upload itself. `fileUrl` is what the upload service returned (None
        when it failed); `cachedAssets` is the asset list the screen last
        fetched. The first cached asset of the milestone is updated, or else
        one asset is created; the busy marker clears on success and on error. */
    method Upload(milestoneId: string, milestoneName: string, fileUrl: Option<string>, cachedAssets: seq<Record>,
                  freshId: string, now: string)
      returns (result: Result<Record>)
      modifies this, coinAssets.storage
      ensures uploadingId == None
      ensures fileUrl.None? ==> result.Failure? && coinAssets.storage.data == old(coinAssets.storage.data)
      ensures fileUrl.Some? && UpsertFor(cachedAssets, milestoneId, milestoneName, fileUrl.value).CreateAsset? ==>
        var item := NewItem(UpsertFor(cachedAssets, milestoneId, milestoneName, fileUrl.value).data, freshId, now);
        && result == Success(item)
        && coinAssets.storage.data == old(coinAssets.storage.data)[coinAssets.Key() := old(coinAssets.Items()) + [item]]
      ensures fileUrl.Some? && UpsertFor(cachedAssets, milestoneId, milestoneName, fileUrl.value).UpdateAsset? ==>
        var u := UpsertFor(cachedAssets, milestoneId, milestoneName, fileUrl.value);
        var patch := Spread(u.patch, map["updated_at" := Str(now)]);
        if u.assetId.Str? && 0 <= IndexOfId(old(coinAssets.Items()), u.assetId.s) then
          && result == Success(Spread(old(coinAssets.Items())[IndexOfId(old(coinAssets.Items()), u.assetId.s)], patch))
          && coinAssets.storage.data ==
             old(coinAssets.storage.data)[coinAssets.Key() := MergeFirst(old(coinAssets.Items()), u.assetId.s, patch)]
        else
          result.Failure? && coinAssets.storage.data == old(coinAssets.storage.data)
    {
      if fileUrl.None? {
        result := Failure("upload failed");
        uploadingId := None;
        return;
      }
      var u := UpsertFor(cachedAssets, milestoneId, milestoneName, fileUrl.value);
      if u.CreateAsset? {
        var item := coinAssets.Create(u.data, freshId, now);
        result := Success(item);
      } else if u.assetId.Str? {
        result := coinAssets.Update(u.assetId.s, u.patch, now);
      } else {
        result := Failure(NotFoundMessage(coinAssets.entityName, "?"));
      }
      uploadingId := None;
    }
  }
}
