/**
 * `useFileUpload`: the storage key of an uploaded file, and the outcome of
 * `uploadFile`. The storage client is outside the model: whether the
 * upload of a key fails is the parameter `uploadFails`, and the public URL
 * of a key is the parameter `publicUrl`. `Date.now()` is `now`, and
 * `Math.random().toString(36).substring(2)` is the text `random`.
 */
module FileUpload {
  import opened Records
  import opened Text

  datatype FileInfo = FileInfo(name: string, fileType: string, size: nat)

  datatype FileUploadResult = FileUploadResult(fileName: string, fileType: string, fileUrl: string, fileSize: nat)

  /** `file.name.split('.').pop()?.toLowerCase()`. */
  function Extension(name: string): (ext: string)
    ensures '.' !in ext
    ensures |ext| <= |name|
  {
    LowerFacts(AfterLast(name, '.'));
    Lower(AfterLast(name, '.'))
  }

  /** `` `${Date.now()}-${random}.${fileExt}` ``. */
  function StorageName(now: nat, random: string, name: string): (r: string)
    ensures NatToString(now) <= r
    ensures |NatToString(now)| < |r| && r[|NatToString(now)|] == '-'
  {
    var digits := NatToString(now);
    var rest := "-" + random + "." + Extension(name);
    Regroup(digits, "-", random, ".", Extension(name));
    assert (digits + rest)[..|digits|] == digits;
    assert (digits + rest)[|digits|] == rest[0] == '-';
    digits + "-" + random + "." + Extension(name)
  }

  /** `path ? `${path}/${fileName}` : fileName`: an absent and an empty path both mean no folder. */
  function StoragePath(path: Option<string>, fileName: string): (key: string)
    ensures |fileName| <= |key| && key[|key| - |fileName|..] == fileName
    ensures path.Some? && path.value != "" ==>
      |path.value| < |key| && key[..|path.value|] == path.value && key[|path.value|] == '/'
    ensures path.None? || path.value == "" ==> key == fileName
  {
    if path.Some? && path.value != "" then path.value + "/" + fileName else fileName
  }

  lemma Regroup(a: string, b: string, c: string, d: string, e: string)
    ensures a + b + c + d + e == a + (b + c + d + e)
    ensures a + b + c + d + e == (a + b + c) + (d + e)
  {
  }

  /** The extension is lower-case text without a '.', the whole name when it has none. */
  lemma ExtensionShape(name: string)
    ensures '.' !in Extension(name)
    ensures Lower(Extension(name)) == Extension(name)
    ensures '.' !in name ==> Extension(name) == Lower(name)
  {
    LowerFacts(AfterLast(name, '.'));
    if '.' !in name {
      AfterLastNone(name, '.');
    }
  }

  /** The extension is what follows the last '.', lower-cased. */
  lemma ExtensionAfterLastDot(base: string, ext: string)
    requires '.' !in ext
    ensures Extension(base + "." + ext) == Lower(ext)
  {
    var s := base + "." + ext;
    assert s[|base|] == '.';
    assert s[|base| + 1..] == ext;
    AfterLastAt(s, '.', |base|);
  }

  /** The stored file keeps the original's extension. */
  lemma StorageNameKeepsExtension(now: nat, random: string, name: string)
    ensures Extension(StorageName(now, random, name)) == Extension(name)
  {
    ExtensionShape(name);
    ExtensionAfterLastDot(NatToString(now) + "-" + random, Extension(name));
  }

  /** The text before the first '-' of the stored name is the timestamp, and reads back as it. */
  lemma StorageNameTimestamp(now: nat, random: string, name: string)
    ensures BeforeFirst(StorageName(now, random, name), '-') == NatToString(now)
    ensures ParseDigits(BeforeFirst(StorageName(now, random, name), '-')) == now
  {
    var digits := NatToString(now);
    var rest := "-" + random + "." + Extension(name);
    Regroup(digits, "-", random, ".", Extension(name));
    NatToStringHasNo(now, '-');
    BeforeFirstOfConcat(digits, rest, '-');
    ParseNatToString(now);
  }

  /** Files uploaded at different milliseconds never share a storage name. */
  lemma StorageNamesDistinct(m: nat, n: nat, random1: string, random2: string, name1: string, name2: string)
    requires m != n
    ensures StorageName(m, random1, name1) != StorageName(n, random2, name2)
  {
    StorageNameTimestamp(m, random1, name1);
    StorageNameTimestamp(n, random2, name2);
  }

  /** The last '/'-separated part of the key is the stored name, whatever the folder. */
  lemma StoragePathLastSegment(path: Option<string>, fileName: string)
    requires '/' !in fileName
    ensures AfterLast(StoragePath(path, fileName), '/') == fileName
    ensures path.Some? && path.value != "" ==> StoragePath(path, fileName)[..|path.value|] == path.value
  {
    if path.Some? && path.value != "" {
      var s := path.value + "/" + fileName;
      assert s[|path.value|] == '/';
      assert s[|path.value| + 1..] == fileName;
      AfterLastAt(s, '/', |path.value|);
    } else {
      AfterLastNone(fileName, '/');
    }
  }

  class FileUploader {
    var uploading: bool

    constructor ()
      ensures !uploading
    {
      uploading := false;
    }

    /**
     * `uploadFile`: uploads under the generated key and, unless the upload
     * fails, returns the original file's name, type and size with the
     * public URL of that same key; `null` on failure. `uploading` is false
     * again on both paths.
     */
    method UploadFile(file: FileInfo, path: Option<string>, now: nat, random: string,
                      uploadFails: string -> bool, publicUrl: string -> string)
      returns (result: Option<FileUploadResult>)
      modifies this`uploading
      ensures !uploading
      ensures var key := StoragePath(path, StorageName(now, random, file.name));
        result == if uploadFails(key) then None
                  else Some(FileUploadResult(file.name, file.fileType, publicUrl(key), file.size))
    {
      uploading := true;
      var fileName := StorageName(now, random, file.name);
      var filePath := StoragePath(path, fileName);
      if uploadFails(filePath) {
        result := None;
      } else {
        var url := publicUrl(filePath);
        result := Some(FileUploadResult(file.name, file.fileType, url, file.size));
      }
      uploading := false;
    }
  }
}
