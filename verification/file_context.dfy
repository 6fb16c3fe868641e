/**
  The in-memory file store shared by the step editor and the viewers: a
  map from file id to the stored file and the blob URL created for it.
  Creating and revoking URLs are browser calls: the URL for a new entry is
  passed in, and the URLs to revoke are returned.
 */
module FileContext {
  import opened Common
  import opened TicketTypes

  /** `FileData`: the stored file with its URL and metadata. */
  datatype FileData = FileData(
    id: string,
    file: FileBlob,
    url: string,
    name: string,
    size: nat,
    fileType: string,
    uploadedAt: int)

  /** The entry `storeFile` builds for a new id. */
  function NewEntry(id: string, file: FileBlob, url: string, now: int): (d: FileData)
    ensures d.id == id && d.url == url && d.file == file
  {
    FileData(id, file, url, file.name, file.size, file.fileType, now)
  }

  class FileStore {
    var files: map<string, FileData>

    /** Every entry is stored under its own id, and no two entries share a URL. */
    ghost predicate Valid()
      reads this
    {
      (forall id :: id in files ==> files[id].id == id)
      && (forall a, b :: a in files && b in files && a != b ==> files[a].url != files[b].url)
    }

    /** The provider starts with an empty map. */
    constructor ()
      ensures Valid() && files == map[]
    {
      files := map[];
    }

    /** `getFile` */
    function GetFile(id: string): (r: Option<FileData>)
      reads this
      ensures r.Some? <==> id in files
      ensures r.Some? ==> r.value == files[id]
    {
      if id in files then Some(files[id]) else None
    }

    /** `getFileUrl`: the URL of `getFile`'s entry, if any. */
    function GetFileUrl(id: string): (r: Option<string>)
      reads this
      ensures r == (match GetFile(id) case Some(d) => Some(d.url) case None => None)
    {
      if id in files then Some(files[id].url) else None
    }

    /**
      `storeFile`: an id already stored keeps its entry and gives back its
      URL; a new id is stored with the fresh URL `newUrl` (what
      `URL.createObjectURL` returned), which is given back.
     */
    method StoreFile(id: string, file: FileBlob, newUrl: string, now: int) returns (url: string)
      requires Valid()
      requires forall k :: k in files ==> files[k].url != newUrl
      modifies this
      ensures Valid()
      ensures id in old(files) ==> url == old(files)[id].url && files == old(files)
      ensures id !in old(files) ==> url == newUrl && files == old(files)[id := NewEntry(id, file, newUrl, now)]
      ensures GetFileUrl(id) == Some(url)
    {
      if id in files {
        return files[id].url;
      }
      url := newUrl;
      files := files[id := NewEntry(id, file, newUrl, now)];
    }

    /** `removeFile`: deletes the id's entry and revokes its URL; an unknown id changes nothing. */
    method RemoveFile(id: string) returns (revoked: Option<string>)
      requires Valid()
      modifies this
      ensures Valid()
      ensures revoked == old(GetFileUrl(id))
      ensures files == old(files) - {id}
      ensures id !in old(files) ==> files == old(files)
    {
      if id in files {
        revoked := Some(files[id].url);
        files := files - {id};
      } else {
        revoked := None;
      }
    }

    /** `cleanup`: revokes every URL and empties the map. */
    method Cleanup() returns (revoked: set<string>)
      requires Valid()
      modifies this
      ensures Valid() && files == map[]
      ensures revoked == set id | id in old(files) :: old(files)[id].url
    {
      revoked := set id | id in files :: files[id].url;
      files := map[];
    }
  }
}
