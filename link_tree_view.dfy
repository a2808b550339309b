/** The link editor page: its working copy of the catalog rows, the
    `isSaving` flag, and the cached user whose `links` field is the stored
    list. Each handler commits one of the list functions of LinkList. */
module LinkTreeView {
  import opened Types
  import opened LinkList

  class LinkEditor {
    /** `devTreeLinks`: one row per network of the catalog. */
    var workingLinks: seq<SocialLink>
    /** `isSaving`: a save request is in flight, so the save button is disabled. */
    var isSaving: bool
    /** The cache entry `['user']`; its `links` is the stored list. */
    const cache: UserCache

    /** The rows keep the catalog's distinct names. No handler's contract
        needs this; it is what lets the LinkList lemmas about one named row
        (FindUnique, AcceptedToggleStep) speak about the editor's rows. */
    ghost predicate Valid()
      reads this
    {
      DistinctNames(workingLinks)
    }

    /** First render: the rows are the catalog itself and nothing is saving. */
    constructor (catalog: seq<SocialLink>, cache: UserCache)
      requires DistinctNames(catalog)
      ensures Valid()
      ensures this.cache == cache
      ensures workingLinks == catalog && !isSaving
    {
      workingLinks := catalog;
      isSaving := false;
      this.cache := cache;
    }

    /** The mount effect: every row takes `url` and `enabled` of the stored
        entry of the same name. */
    method LoadStoredLinks()
      requires Valid()
      modifies this
      ensures Valid()
      ensures workingLinks == MergeStored(old(workingLinks), cache.user.links)
      ensures isSaving == old(isSaving)
    {
      workingLinks := MergeStored(workingLinks, cache.user.links);
      SameNamesKeepDistinct(old(workingLinks), workingLinks);
    }

    /** `handleUrlChange`: the input named `name` now reads `url`. Nothing is
        written to the cache. */
    method HandleUrlChange(name: string, url: string)
      requires Valid()
      modifies this
      ensures Valid()
      ensures workingLinks == SetUrl(old(workingLinks), name, url)
      ensures isSaving == old(isSaving)
    {
      workingLinks := SetUrl(workingLinks, name, url);
      SameNamesKeepDistinct(old(workingLinks), workingLinks);
    }

    /** `handleEnableLink`: toggle the row, update the stored list by the
        toggled row's `enabled`, and write it back into the cached user,
        replacing only `links`. Returns whether the invalid-URL
        notification is shown. */
    method HandleEnableLink(name: string, isValidUrl: string -> bool) returns (urlRejected: bool)
      requires Valid()
      modifies this, cache
      ensures Valid()
      ensures urlRejected == UrlRejected(old(workingLinks), name, isValidUrl)
      ensures workingLinks == ToggleRows(old(workingLinks), name, isValidUrl)
      ensures cache.user == old(cache.user).(links := UpdateStored(workingLinks, old(cache.user.links), name))
      ensures isSaving == old(isSaving)
    {
      urlRejected := UrlRejected(workingLinks, name, isValidUrl);
      var updatedLinks := ToggleRows(workingLinks, name, isValidUrl);
      SameNamesKeepDistinct(workingLinks, updatedLinks);
      var updatedItems := UpdateStored(updatedLinks, cache.user.links, name);
      workingLinks := updatedLinks;
      cache.user := cache.user.(links := updatedItems);
    }

    /** A click on the save button: ignored while a save is in flight (the
        button is disabled); otherwise `handleSave` raises `isSaving` and
        submits the cached user. Returns the submitted record, if any. */
    method ClickSave() returns (submitted: Option<User>)
      requires Valid()
      modifies this
      ensures Valid()
      ensures workingLinks == old(workingLinks)
      ensures old(isSaving) ==> submitted == None && isSaving
      ensures !old(isSaving) ==> submitted == Some(cache.user) && isSaving
    {
      if isSaving {
        submitted := None;
      } else {
        isSaving := true;
        submitted := Some(cache.user);
      }
    }

    /** `onSettled`: the save request has finished, whether it succeeded or
        failed, and the flag drops. */
    method SaveSettled()
      requires Valid()
      modifies this
      ensures Valid()
      ensures workingLinks == old(workingLinks)
      ensures !isSaving
    {
      isSaving := false;
    }
  }

  /** Two clicks on the save button before the first request settles send
      one request. */
  method DoubleClickSave(editor: LinkEditor) returns (requests: nat)
    requires editor.Valid() && !editor.isSaving
    modifies editor
    ensures requests == 1 && editor.isSaving
  {
    var first := editor.ClickSave();
    var second := editor.ClickSave();
    requests := (if first.Some? then 1 else 0) + (if second.Some? then 1 else 0);
  }
}
