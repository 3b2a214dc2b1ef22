/** The validation half of `StorageService.upload_profile_photo`: the size
    limit, the extension check and the construction of the storage key. The
    upload itself (bucket blob, `make_public`, public URL) is not modelled; a
    photo that passes is described by the upload it would issue. */
module Storage {
  import opened PyLib

  /** Largest accepted photo, in bytes (1 MiB). */
  const MaxPhotoBytes := 1_048_576

  const SizeMessage := "the photo size must be less than 1MB"
  const ExtensionMessage := "Only .jpg and .png files are allowed"
  const KeyPrefix := "profile_photos/"
  const AllowedExtensions := [".jpg", ".png"]

  /** What the service does with a photo: raise a ValueError with a message,
      or upload `content` under `key` with the declared content type. */
  datatype PhotoPlan =
    | Rejected(message: string)
    | Upload(key: string, content: seq<bv8>, contentType: string)

  /** The extension the service checks: `os.path.splitext(filename)[1].lower()`. */
  function PhotoExtension(filename: string): string {
    Lower(Ext(filename))
  }

  /** Case-insensitive ".jpg" or ".png", written out letter by letter. */
  predicate IsJpgOrPng(e: string) {
    && |e| == 4 && e[0] == '.'
    && (|| (e[1] in "jJ" && e[2] in "pP" && e[3] in "gG")
        || (e[1] in "pP" && e[2] in "nN" && e[3] in "gG"))
  }

  /** `upload_profile_photo` up to the upload: `id` stands for the generated
      UUID. The size check comes first, then the extension check; only a
      photo that passes both leads to an upload. */
  function UploadProfilePhoto(content: seq<bv8>, filename: string, contentType: string, id: string): (r: PhotoPlan)
    ensures r.Upload? <==> |content| <= MaxPhotoBytes && PhotoExtension(filename) in AllowedExtensions
    ensures |content| > MaxPhotoBytes ==> r == Rejected(SizeMessage)
    ensures |content| <= MaxPhotoBytes && PhotoExtension(filename) !in AllowedExtensions ==> r == Rejected(ExtensionMessage)
    ensures r.Upload? ==> r.content == content && r.contentType == contentType
    ensures r.Upload? ==> r.key == KeyPrefix + id + PhotoExtension(filename)
    ensures r.Upload? ==> r.key[..|KeyPrefix|] == KeyPrefix
    ensures r.Upload? ==> r.key[|r.key| - 4..] in AllowedExtensions
  {
    if |content| > MaxPhotoBytes then
      Rejected(SizeMessage)
    else
      var fileExt := PhotoExtension(filename);
      if fileExt !in AllowedExtensions then
        Rejected(ExtensionMessage)
      else
        var key := KeyPrefix + id + fileExt;
        assert key[|key| - 4..] == fileExt;
        Upload(key, content, contentType)
  }

  /** The lower-cased extension is ".jpg" or ".png" exactly when the filename
      has an extension in the sense of `ExtensionAt` and that extension is
      ".jpg" or ".png" in any mix of cases. */
  lemma AcceptedExtension(filename: string)
    ensures PhotoExtension(filename) in AllowedExtensions
        <==> exists d :: ExtensionAt(filename, d) && IsJpgOrPng(filename[d..])
  {
    ExtMatchesReference(filename);
    LowerAllowed(Ext(filename));
  }

  /** Lower-casing gives ".jpg" or ".png" exactly for the case variants of those two. */
  lemma LowerAllowed(e: string)
    ensures Lower(e) in AllowedExtensions <==> IsJpgOrPng(e)
  {
    if |e| == 4 {
      LowerOfFour(e);
    }
  }

  /** Lower-casing a four-character string, character by character. */
  lemma LowerOfFour(e: string)
    requires |e| == 4
    ensures Lower(e) == [LowerChar(e[0]), LowerChar(e[1]), LowerChar(e[2]), LowerChar(e[3])]
  {
  }

  /** A photo of exactly 1 MiB passes the size check. */
  lemma SizeLimitInclusive(content: seq<bv8>, filename: string, contentType: string, id: string)
    requires |content| == MaxPhotoBytes
    ensures UploadProfilePhoto(content, filename, contentType, id) != Rejected(SizeMessage)
  {
  }

  /** An upper-case extension is accepted and lower-cased in the key. */
  lemma ExampleUpperCaseAccepted(small: seq<bv8>)
    requires |small| <= MaxPhotoBytes
    ensures UploadProfilePhoto(small, "me.JPG", "image/jpeg", "u1") == Upload("profile_photos/u1.jpg", small, "image/jpeg")
  {
    assert Ext("me.JPG") == ".JPG" by {
      assert NoSlashBetween("me.JPG", 0, 2);
      assert ExtensionAt("me.JPG", 2);
      ExtMatchesReference("me.JPG");
    }
    assert PhotoExtension("me.JPG") == ".jpg" by { LowerOfFour(".JPG"); }
  }

  /** Only the last dot starts the extension. */
  lemma ExampleLastDot(small: seq<bv8>)
    requires |small| <= MaxPhotoBytes
    ensures UploadProfilePhoto(small, "a.b.PNG", "image/png", "u2") == Upload("profile_photos/u2.png", small, "image/png")
  {
    assert Ext("a.b.PNG") == ".PNG" by {
      assert NoSlashBetween("a.b.PNG", 0, 3);
      assert ExtensionAt("a.b.PNG", 3);
      ExtMatchesReference("a.b.PNG");
    }
    assert PhotoExtension("a.b.PNG") == ".png" by { LowerOfFour(".PNG"); }
  }

  /** ".jpeg" is refused. */
  lemma ExampleJpegRejected(small: seq<bv8>)
    requires |small| <= MaxPhotoBytes
    ensures UploadProfilePhoto(small, "me.jpeg", "image/jpeg", "u3") == Rejected(ExtensionMessage)
  {
  }

  /** A name without a dot, and a name that is only a dot-file, have no extension and are refused. */
  lemma ExampleNoExtensionRejected(small: seq<bv8>)
    requires |small| <= MaxPhotoBytes
    ensures UploadProfilePhoto(small, "photo", "image/png", "u4") == Rejected(ExtensionMessage)
    ensures UploadProfilePhoto(small, ".png", "image/png", "u5") == Rejected(ExtensionMessage)
  {
  }
}
