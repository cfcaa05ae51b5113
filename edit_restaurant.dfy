/**
 * The restaurant edit route: a partial update of the tenant's row built
 * field by field from the form, with the theme parsed from JSON and an
 * optional new logo.
 */
module EditRestaurant {
  import opened Wrappers
  import opened Platform

  /** The fields of the multipart form; `None` where `formData.get` gives null. */
  datatype RestaurantForm = RestaurantForm(
    id: Option<string>,
    name: Option<string>,
    slug: Option<string>,
    logo: Option<FormEntry>,
    email: Option<string>,
    location: Option<string>,
    phone: Option<string>,
    tagline: Option<string>,
    themeSettings: Option<string>)

  /** What the store's `update(...).eq("id", id).select().single()` gave back. */
  datatype TenantWrite = Written(row: map<string, Json>) | WriteFailed(error: StoreError)

  /**
   * `updateData`: one optional property per assignment the route can make;
   * `None` where the property was never set.
   */
  datatype UpdateData = UpdateData(
    name: Option<string>,
    slug: Option<string>,
    email: Option<string>,
    location: Option<string>,
    phone: Option<string>,
    tagLine: Option<string>,
    themeSettings: Option<Json>,
    logoUrl: Option<string>)

  /** The freshly created `{}`. */
  const NoChanges: UpdateData := UpdateData(None, None, None, None, None, None, None, None)

  /** The outside calls the route makes, in order. */
  datatype TenantEffect =
    | UploadLogo(folder: string)
    | UpdateTenant(id: string, data: UpdateData)

  const MissingId: string := "Missing restaurant ID."
  const InvalidTheme: string := "Invalid themeSettings JSON."
  const LogoFailed: string := "Failed to upload logo."
  const InternalError: string := "Internal Server Error"
  /** The upload helper's folder when the caller names none. */
  const DefaultFolder: string := "uploads"

  /** The property names `updateData` can carry. */
  const UpdateKeys: set<string> :=
    {"name", "slug", "email", "location", "phone", "tagLine", "themeSettings", "logo_url"}

  function Str(v: Option<string>): (j: Option<Json>)
    ensures j.Some? <==> v.Some?
  {
    if v.Some? then Some(JStr(v.value)) else None
  }

  /** The property of `updateData` read by its name, `None` where it was never set. */
  function Property(d: UpdateData, key: string): Option<Json>
  {
    if key == "name" then Str(d.name)
    else if key == "slug" then Str(d.slug)
    else if key == "email" then Str(d.email)
    else if key == "location" then Str(d.location)
    else if key == "phone" then Str(d.phone)
    else if key == "tagLine" then Str(d.tagLine)
    else if key == "themeSettings" then d.themeSettings
    else if key == "logo_url" then Str(d.logoUrl)
    else None
  }

  /** The object sent to the store: each set property under its name. */
  function Properties(d: UpdateData): map<string, Json>
  {
    map key | key in UpdateKeys && Property(d, key).Some? :: Property(d, key).value
  }

  /**
   * No property outside the listed names reaches the store, in particular not
   * the form's lower-case `tagline`, and the tag line is sent as `tagLine`.
   */
  lemma PropertiesKeys(d: UpdateData)
    ensures Properties(d).Keys <= UpdateKeys
    ensures "tagline" !in Properties(d)
    ensures ("tagLine" in Properties(d) <==> d.tagLine.Some?)
    ensures d.tagLine.Some? ==> Properties(d)["tagLine"] == JStr(d.tagLine.value)
  {
    assert "tagline" !in UpdateKeys by {
      assert "tagline"[3] != "tagLine"[3];
    }
    assert Property(d, "tagLine") == Str(d.tagLine);
  }

  /**
   * The update a form describes, given the parser and the logo URL (if one
   * was uploaded): each text property copied when the form value is not null
   * (an empty string included), `tagline` as `tagLine`, the parsed theme
   * when there is one, and the logo URL.
   */
  predicate Describes(d: UpdateData, form: RestaurantForm, parse: string -> Option<Json>, logoUrl: Option<string>)
  {
    && d.name == form.name
    && d.slug == form.slug
    && d.email == form.email
    && d.location == form.location
    && d.phone == form.phone
    && d.tagLine == form.tagline
    && d.themeSettings == (if form.themeSettings.Some? then parse(form.themeSettings.value) else None)
    && d.logoUrl == logoUrl
  }

  /**
   * On the wire, a text field is sent under its own name exactly when the
   * form value is not null, an empty string included.
   */
  lemma SentUnderOwnName(d: UpdateData, form: RestaurantForm, parse: string -> Option<Json>,
                         logoUrl: Option<string>, key: string)
    requires Describes(d, form, parse, logoUrl)
    requires key in {"name", "slug", "email", "location", "phone"}
    ensures key in Properties(d) <==> FormText(form, key).Some?
    ensures key in Properties(d) ==> Properties(d)[key] == JStr(FormText(form, key).value)
  {
    assert key in UpdateKeys;
    assert Property(d, key) == Str(FormText(form, key));
  }

  /** On the wire, the theme is the parsed value, sent exactly when the form has one that parses. */
  lemma SentTheme(d: UpdateData, form: RestaurantForm, parse: string -> Option<Json>, logoUrl: Option<string>)
    requires Describes(d, form, parse, logoUrl)
    ensures "themeSettings" in Properties(d) <==>
      form.themeSettings.Some? && parse(form.themeSettings.value).Some?
    ensures "themeSettings" in Properties(d) ==>
      Some(Properties(d)["themeSettings"]) == parse(form.themeSettings.value)
    ensures "logo_url" in Properties(d) <==> logoUrl.Some?
  {
    assert Property(d, "themeSettings") == d.themeSettings;
    assert Property(d, "logo_url") == Str(d.logoUrl);
  }

  /** The text field of the form that carries the same name as a property. */
  function FormText(form: RestaurantForm, key: string): Option<string>
  {
    if key == "name" then form.name
    else if key == "slug" then form.slug
    else if key == "email" then form.email
    else if key == "location" then form.location
    else if key == "phone" then form.phone
    else None
  }

  /** The message of an error caught by the route: `message || "Internal Server Error"`. */
  function CaughtMessage(message: string): (r: string)
    ensures r != ""
    ensures message != "" ==> r == message
    ensures message == "" ==> r == InternalError
  {
    if message != "" then message else InternalError
  }

  /** The theme, if the form has one, is accepted by `JSON.parse`. */
  predicate ThemeParses(form: RestaurantForm, parse: string -> Option<Json>)
  {
    form.themeSettings.Some? ==> parse(form.themeSettings.value).Some?
  }

  /**
   * The part of the route that fills `updateData` from the form's text fields
   * and theme; `ok` is false where `JSON.parse` throws on the theme.
   */
  method FormFields(form: RestaurantForm, parse: string -> Option<Json>)
    returns (updateData: UpdateData, ok: bool)
    ensures ok <==> ThemeParses(form, parse)
    ensures ok ==> Describes(updateData, form, parse, None)
  {
    updateData := NoChanges;
    if form.name.Some? { updateData := updateData.(name := form.name); }
    assert updateData == NoChanges.(name := form.name);
    if form.slug.Some? { updateData := updateData.(slug := form.slug); }
    assert updateData == NoChanges.(name := form.name, slug := form.slug);
    if form.email.Some? { updateData := updateData.(email := form.email); }
    assert updateData == NoChanges.(name := form.name, slug := form.slug, email := form.email);
    if form.location.Some? { updateData := updateData.(location := form.location); }
    assert updateData == NoChanges.(name := form.name, slug := form.slug, email := form.email,
                                    location := form.location);
    if form.phone.Some? { updateData := updateData.(phone := form.phone); }
    assert updateData == NoChanges.(name := form.name, slug := form.slug, email := form.email,
                                    location := form.location, phone := form.phone);
    if form.tagline.Some? { updateData := updateData.(tagLine := form.tagline); }
    assert updateData == NoChanges.(name := form.name, slug := form.slug, email := form.email,
                                    location := form.location, phone := form.phone, tagLine := form.tagline);
    ok := true;
    if form.themeSettings.Some? {
      var parsed := parse(form.themeSettings.value);
      if parsed.None? {
        ok := false;
        return;
      }
      updateData := updateData.(themeSettings := parsed);
    }
  }

  /**
   * `PUT /api/restaurants/editRestaurant`. `parse` stands for `JSON.parse`
   * (None where it throws); `upload` and `write` are the answers of the
   * image host and the store, consulted only if the call is made.
   */
  method Put(form: RestaurantForm, parse: string -> Option<Json>, upload: UploadOutcome, write: TenantWrite)
    returns (resp: Response, effects: seq<TenantEffect>)
    // a missing or empty id stops the route before anything else
    ensures !Truthy(form.id) ==> resp == Response(400, ErrorBody(MissingId)) && effects == []
    // a theme that does not parse stops it before any upload
    ensures Truthy(form.id) && !ThemeParses(form, parse) ==>
      resp == Response(400, ErrorBody(InvalidTheme)) && effects == []
    // a non-empty logo is uploaded to the default folder; a rejection or a missing URL stops the route
    ensures Truthy(form.id) && ThemeParses(form, parse) && HasContent(form.logo) && upload.UploadRejected? ==>
      resp == Response(500, ErrorBody(CaughtMessage(upload.message))) && effects == [UploadLogo(DefaultFolder)]
    ensures (&& Truthy(form.id) && ThemeParses(form, parse) && HasContent(form.logo)
             && upload.Uploaded? && !Truthy(upload.url)) ==>
      resp == Response(500, ErrorBody(LogoFailed)) && effects == [UploadLogo(DefaultFolder)]
    // otherwise the row with the form's id is updated with what the form describes, and the store's answer is passed on
    ensures (&& Truthy(form.id) && ThemeParses(form, parse)
             && (HasContent(form.logo) ==> upload.Uploaded? && Truthy(upload.url))) ==>
      && |effects| >= 1
      && effects[..|effects| - 1] == (if HasContent(form.logo) then [UploadLogo(DefaultFolder)] else [])
      && effects[|effects| - 1].UpdateTenant?
      && effects[|effects| - 1].id == form.id.value
      && Describes(effects[|effects| - 1].data, form, parse, if HasContent(form.logo) then upload.url else None)
      && resp == match write {
           case Written(row) => Response(200, RowBody(row))
           case WriteFailed(error) => Response(500, ErrorBody(CaughtMessage(error.message)))
         }
    ensures resp.status == 200 ==> write.Written? && resp.body == RowBody(write.row)
  {
    effects := [];
    if !Truthy(form.id) {
      return Response(400, ErrorBody(MissingId)), effects;
    }

    var updateData, parsedOk := FormFields(form, parse);
    if !parsedOk {
      return Response(400, ErrorBody(InvalidTheme)), effects;
    }

    if HasContent(form.logo) {
      effects := effects + [UploadLogo(DefaultFolder)];
      if upload.UploadRejected? {
        return Response(500, ErrorBody(CaughtMessage(upload.message))), effects;
      }
      if !Truthy(upload.url) {
        return Response(500, ErrorBody(LogoFailed)), effects;
      }
      updateData := updateData.(logoUrl := upload.url);
    }

    effects := effects + [UpdateTenant(form.id.value, updateData)];
    match write
    case WriteFailed(error) =>
      resp := Response(500, ErrorBody(CaughtMessage(error.message)));
    case Written(row) =>
      resp := Response(200, RowBody(row));
  }
}
