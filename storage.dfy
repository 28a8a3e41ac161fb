/**
 * The checks and the object path that `uploadImage` computes before it hands
 * the file to the storage service. The random part and the timestamp of the
 * generated name are parameters.
 */
module Storage {

  /** `MAX_FILE_SIZE`: 5 MiB. */
  const MaxFileSize: int := 5 * 1024 * 1024

  /** `ALLOWED_TYPES`. */
  const AllowedTypes: seq<string> := ["image/jpeg", "image/jpg", "image/png", "image/webp"]

  datatype UploadError = FileTooLarge | UnsupportedType

  /** Either the error `uploadImage` throws, or the generated file name and the storage path. */
  datatype UploadPlan = Rejected(error: UploadError) | Planned(fileName: string, path: string)

  /**
   * `name.split('.').pop()`: the text after the last '.', or the whole name
   * when it has no '.'.
   */
  function FileExtension(name: string): (ext: string)
    ensures '.' !in ext
    ensures |ext| <= |name| && ext == name[|name| - |ext|..]
    ensures |ext| == |name| || name[|name| - |ext| - 1] == '.'
  {
    if name == [] then []
    else if name[|name| - 1] == '.' then []
    else
      var init := name[..|name| - 1];
      var e := FileExtension(init);
      assert init[|init| - |e|..] + [name[|name| - 1]] == name[|name| - |e| - 1..];
      e + [name[|name| - 1]]
  }

  /**
   * The start of `uploadImage`: the size check, then the type check, then the
   * name `<random>-<timestamp>.<extension>`, placed under `folder` when one is given.
   */
  function PlanUpload(size: int, mimeType: string, name: string, folder: string,
                      randomPart: string, timestamp: string): (plan: UploadPlan)
    ensures size > MaxFileSize <==> plan == Rejected(FileTooLarge)
    ensures plan == Rejected(UnsupportedType) <==> size <= MaxFileSize && mimeType !in AllowedTypes
    ensures plan.Planned? ==>
      && plan.fileName == randomPart + "-" + timestamp + "." + FileExtension(name)
      && plan.path == (if folder != "" then folder + "/" + plan.fileName else plan.fileName)
  {
    if size > MaxFileSize then Rejected(FileTooLarge)
    else if mimeType !in AllowedTypes then Rejected(UnsupportedType)
    else
      var fileName := randomPart + "-" + timestamp + "." + FileExtension(name);
      Planned(fileName, if folder != "" then folder + "/" + fileName else fileName)
  }

  /** The extension is determined by the three facts `FileExtension` ensures. */
  lemma {:induction false} ExtensionUnique(name: string, e: string)
    requires '.' !in e
    requires |e| <= |name| && e == name[|name| - |e|..]
    requires |e| == |name| || name[|name| - |e| - 1] == '.'
    ensures e == FileExtension(name)
  {
    var f := FileExtension(name);
    assert |e| == |f|;
  }

  /** The generated name keeps the extension of the uploaded file. */
  lemma GeneratedNameKeepsExtension(size: int, mimeType: string, name: string, folder: string,
                                    randomPart: string, timestamp: string)
    requires PlanUpload(size, mimeType, name, folder, randomPart, timestamp).Planned?
    ensures FileExtension(PlanUpload(size, mimeType, name, folder, randomPart, timestamp).fileName)
            == FileExtension(name)
  {
    ExtensionAfterDot(randomPart + "-" + timestamp, FileExtension(name));
  }

  /** A name ending in "." and a dot-free text has that text as its extension. */
  lemma ExtensionAfterDot(stem: string, ext: string)
    requires '.' !in ext
    ensures FileExtension(stem + "." + ext) == ext
  {
    var fileName := stem + "." + ext;
    assert fileName[|fileName| - |ext| - 1] == '.';
    assert fileName[|fileName| - |ext|..] == ext;
    ExtensionUnique(fileName, ext);
  }

  /** Exactly 5 MiB passes the size check, one byte more does not. */
  lemma SizeLimitBoundary(mimeType: string, name: string, folder: string,
                          randomPart: string, timestamp: string)
    ensures PlanUpload(MaxFileSize, mimeType, name, folder, randomPart, timestamp) != Rejected(FileTooLarge)
    ensures PlanUpload(MaxFileSize + 1, mimeType, name, folder, randomPart, timestamp) == Rejected(FileTooLarge)
  {
  }
}
