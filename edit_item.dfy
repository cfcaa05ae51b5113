/**
 * The menu-item edit route: derive the image host's public id from a stored
 * image URL, validate the form, replace the image when a new one comes, and
 * write the item.
 */
module EditItem {
  import opened Wrappers
  import opened Platform

  // ---------------------------------------------------------------- strings

  /** JavaScript's `s.split(sep)` for a one-character separator: never empty, no piece holds `sep`. */
  function Split(s: string, sep: char): (parts: seq<string>)
    ensures |parts| >= 1
    ensures forall i :: 0 <= i < |parts| ==> sep !in parts[i]
  {
    if s == [] then [""]
    else if s[0] == sep then [""] + Split(s[1..], sep)
    else
      var rest := Split(s[1..], sep);
      [[s[0]] + rest[0]] + rest[1..]
  }

  /** JavaScript's `parts.join(sep)`. */
  function Join(parts: seq<string>, sep: char): string
  {
    if |parts| <= 1 then (if parts == [] then "" else parts[0])
    else parts[0] + [sep] + Join(parts[1..], sep)
  }

  /** Joining the pieces of a split gives back the string. */
  lemma {:induction false} JoinSplit(s: string, sep: char)
    ensures Join(Split(s, sep), sep) == s
  {
    if s != [] {
      JoinSplit(s[1..], sep);
      var rest := Split(s[1..], sep);
      if s[0] == sep {
        assert ([""] + rest)[1..] == rest;
      } else {
        var parts := [[s[0]] + rest[0]] + rest[1..];
        assert parts[1..] == rest[1..];
        if |rest| > 1 {
          assert rest == [rest[0]] + rest[1..];
        }
        assert s == [s[0]] + s[1..];
      }
    }
  }

  /** A character missing from the string is missing from every piece. */
  lemma {:induction false} SplitKeepsOut(s: string, sep: char, c: char)
    requires c !in s
    ensures forall i :: 0 <= i < |Split(s, sep)| ==> c !in Split(s, sep)[i]
  {
    if s != [] {
      assert c !in s[1..];
      SplitKeepsOut(s[1..], sep, c);
    }
  }

  /** A separator splits a string into the pieces of its two sides. */
  lemma {:induction false} SplitAround(a: string, b: string, sep: char)
    ensures Split(a + [sep] + b, sep) == Split(a, sep) + Split(b, sep)
  {
    if a == [] {
      assert a + [sep] + b == [sep] + b;
      assert ([sep] + b)[1..] == b;
    } else {
      assert (a + [sep] + b)[1..] == a[1..] + [sep] + b;
      assert (a + [sep] + b)[0] == a[0];
      SplitAround(a[1..], b, sep);
    }
  }

  /** A string without the separator is its own single piece. */
  lemma {:induction false} SplitNoSep(s: string, sep: char)
    requires sep !in s
    ensures Split(s, sep) == [s]
  {
    if s != [] {
      assert sep !in s[1..];
      SplitNoSep(s[1..], sep);
      assert s == [s[0]] + s[1..];
    }
  }

  /** Splitting a join of pieces without the separator gives the pieces back. */
  lemma {:induction false} SplitJoin(parts: seq<string>, sep: char)
    requires |parts| >= 1
    requires forall i :: 0 <= i < |parts| ==> sep !in parts[i]
    ensures Split(Join(parts, sep), sep) == parts
  {
    if |parts| == 1 {
      SplitNoSep(parts[0], sep);
    } else {
      SplitNoSep(parts[0], sep);
      SplitJoin(parts[1..], sep);
      SplitAround(parts[0], Join(parts[1..], sep), sep);
      assert parts == [parts[0]] + parts[1..];
    }
  }

  // ---------------------------------------------------------------- public id

  const Folder: string := "menu-items"

  /** The file name without its extension(s): last `/` piece, up to its first `.`. */
  function Stem(url: string): (r: string)
    ensures '/' !in r && '.' !in r
  {
    var parts := Split(url, '/');
    SplitKeepsOut(parts[|parts| - 1], '.', '/');
    Split(parts[|parts| - 1], '.')[0]
  }

  /**
   * `extractPublicId`: the stem, prefixed with `menu-items/` when some path
   * piece is exactly `menu-items`; a null URL makes `split` throw and gives null.
   */
  function ExtractPublicId(imageUrl: Option<string>): (r: Option<string>)
    ensures r.None? <==> imageUrl.None?
    ensures r.Some? && Folder in Split(imageUrl.value, '/') ==> r.value == Folder + "/" + Stem(imageUrl.value)
    ensures r.Some? && Folder !in Split(imageUrl.value, '/') ==> r.value == Stem(imageUrl.value) && '/' !in r.value
  {
    match imageUrl
    case None => None
    case Some(url) =>
      var parts := Split(url, '/');
      var publicId := Stem(url);
      if Folder in parts then Some(Folder + "/" + publicId) else Some(publicId)
  }

  /**
   * The stem is determined by the URL's shape alone: for a URL written as a
   * directory part (empty or ending in `/`), a name without `/` or `.`, and an
   * extension part (empty or starting with `.`, without `/`), it is that name.
   */
  lemma StemOfShape(dir: string, name: string, ext: string)
    requires dir == [] || dir[|dir| - 1] == '/'
    requires '/' !in name && '.' !in name
    requires '/' !in ext && (ext == [] || ext[0] == '.')
    ensures Stem(dir + name + ext) == name
  {
    var file := name + ext;
    assert '/' !in file;
    SplitNoSep(file, '/');
    if dir == [] {
      assert dir + name + ext == file;
    } else {
      var d := dir[..|dir| - 1];
      assert dir + name + ext == d + ['/'] + file;
      SplitAround(d, file, '/');
    }
    if ext == [] {
      assert file == name;
      SplitNoSep(name, '.');
    } else {
      assert file == name + ['.'] + ext[1..];
      SplitAround(name, ext[1..], '.');
      SplitNoSep(name, '.');
    }
  }

  /** A piece that merely starts with `menu-items` does not count: the id stays bare. */
  lemma FolderPrefixIsNotFolder()
    ensures ExtractPublicId(Some("menu-items2/b")) == Some("b")
  {
    var parts := ["menu-items2", "b"];
    assert Join(parts, '/') == "menu-items2/b";
    SplitJoin(parts, '/');
    SplitNoSep("b", '.');
    assert Folder !in parts;
  }

  /** An exact `menu-items` piece prefixes the id with the folder. */
  lemma FolderPieceGivesPrefix()
    ensures ExtractPublicId(Some("menu-items/b")) == Some("menu-items/b")
  {
    var parts := [Folder, "b"];
    assert Join(parts, '/') == "menu-items/b";
    SplitJoin(parts, '/');
    SplitNoSep("b", '.');
    assert Folder in parts;
  }

  // ---------------------------------------------------------------- route

  /** The fields of the multipart form; `None` where `formData.get` gives null. */
  datatype ItemForm = ItemForm(
    itemId: Option<string>,
    name: Option<string>,
    price: Option<string>,
    description: Option<string>,
    existingImageUrl: Option<string>,
    image: Option<FormEntry>,
    availability: Option<string>,
    popular: Option<string>)

  /** The columns written to the item's row. */
  datatype ItemUpdate = ItemUpdate(
    name: string,
    price: string,
    desc: string,
    imageUrl: Option<string>,
    updatedAt: Timestamp,
    availability: bool,
    popular: bool)

  /** The outside calls the route makes, in order. */
  datatype ItemEffect =
    | DeleteImage(publicId: string)
    | UploadImage(folder: string)
    | UpdateItem(itemId: string, update: ItemUpdate)

  /** What the image host's `destroy` did; a failure is caught and logged only. */
  datatype DeleteOutcome = Destroyed | DestroyFailed(message: string)

  const MissingFields: string := "Missing required fields."
  const UploadFailed: string := "Failed to upload image"

  /** The form flag check `formData.get(key) === "true"`. */
  predicate Flag(v: Option<string>)
  {
    v == Some("true")
  }

  /** All four required fields are present and non-empty. */
  predicate HasRequired(f: ItemForm)
  {
    Truthy(f.itemId) && Truthy(f.name) && Truthy(f.price) && Truthy(f.description)
  }

  /** The deletion call for the old image: made only for a non-empty public id. */
  function OldImageDeletion(existingImageUrl: Option<string>): (calls: seq<ItemEffect>)
    ensures |calls| <= 1
    ensures calls != [] <==> Truthy(ExtractPublicId(existingImageUrl))
    ensures calls != [] ==> calls[0].DeleteImage? && Some(calls[0].publicId) == ExtractPublicId(existingImageUrl)
  {
    var publicId := ExtractPublicId(existingImageUrl);
    if Truthy(publicId) then [DeleteImage(publicId.value)] else []
  }

  /**
   * The row the route writes for a validated form: the text fields as given,
   * `description` as `desc`, the two flags parsed, and the chosen image URL.
   */
  function RowUpdate(form: ItemForm, imageUrl: Option<string>, now: Timestamp): (u: ItemUpdate)
    requires HasRequired(form)
    ensures u.name == form.name.value && u.price == form.price.value && u.desc == form.description.value
    ensures u.imageUrl == imageUrl && u.updatedAt == now
    ensures u.availability <==> form.availability == Some("true")
    ensures u.popular <==> form.popular == Some("true")
  {
    ItemUpdate(form.name.value, form.price.value, form.description.value, imageUrl, now,
               Flag(form.availability), Flag(form.popular))
  }

  /**
   * `PUT /api/items/editItem`. The outside world's answers come in as
   * parameters and are consulted only if the call is made: `destroy` for the
   * old image (its failure is logged and changes nothing), `upload` for the
   * new one, `fault` for the row update.
   */
  method Put(form: ItemForm, now: Timestamp, destroy: DeleteOutcome, upload: UploadOutcome, fault: Option<StoreError>)
    returns (resp: Response, effects: seq<ItemEffect>)
    // no clause mentions `destroy`: whether the old image's deletion fails changes
    // neither the calls made nor the response
    // validation comes first and makes no call
    ensures !HasRequired(form) ==> resp == Response(400, ErrorBody(MissingFields)) && effects == []
    // no new file: the stored URL is kept and nothing is deleted or uploaded
    ensures HasRequired(form) && !HasContent(form.image) ==>
      effects == [UpdateItem(form.itemId.value, RowUpdate(form, form.existingImageUrl, now))]
    // a new file: the old image goes first (when it has a public id), then the upload to menu-items
    ensures HasRequired(form) && HasContent(form.image) && upload.UploadRejected? ==>
      && effects == OldImageDeletion(form.existingImageUrl) + [UploadImage(Folder)]
      && resp == Response(500, ErrorBody(upload.message))
    ensures HasRequired(form) && HasContent(form.image) && upload.Uploaded? && !Truthy(upload.url) ==>
      && effects == OldImageDeletion(form.existingImageUrl) + [UploadImage(Folder)]
      && resp == Response(500, ErrorBody(UploadFailed))
    ensures HasRequired(form) && HasContent(form.image) && upload.Uploaded? && Truthy(upload.url) ==>
      effects == OldImageDeletion(form.existingImageUrl)
        + [UploadImage(Folder), UpdateItem(form.itemId.value, RowUpdate(form, upload.url, now))]
    // once the row update is made, the store's answer decides the response
    ensures effects != [] && effects[|effects| - 1].UpdateItem? ==>
      resp == if fault.None? then Response(200, CodeBody(1, "Item updated"))
              else Response(500, ErrorBody(fault.value.message))
    ensures resp.status == 200 ==> effects != [] && effects[|effects| - 1].UpdateItem?
  {
    effects := [];

    if !HasRequired(form) {
      return Response(400, ErrorBody(MissingFields)), effects;
    }

    var newImageUrl := form.existingImageUrl;

    if HasContent(form.image) {
      var publicId := ExtractPublicId(form.existingImageUrl);
      if Truthy(publicId) {
        // whether `destroy` succeeds or fails, the route goes on
        effects := effects + [DeleteImage(publicId.value)];
      }
      effects := effects + [UploadImage(Folder)];
      if upload.UploadRejected? {
        return Response(500, ErrorBody(upload.message)), effects;
      }
      if !Truthy(upload.url) {
        return Response(500, ErrorBody(UploadFailed)), effects;
      }
      newImageUrl := upload.url;
    }

    // the two flags are parsed inside `RowUpdate`
    effects := effects + [UpdateItem(form.itemId.value, RowUpdate(form, newImageUrl, now))];
    if fault.Some? {
      return Response(500, ErrorBody(fault.value.message)), effects;
    }
    resp := Response(200, CodeBody(1, "Item updated"));
  }
}
