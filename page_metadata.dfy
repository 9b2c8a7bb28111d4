/** Extraction of feed metadata from a page and from the site configuration:
    `Util.get_description_or_abstract`, `Util.get_image` and
    `Util.guess_locale`. Each is a chain of fallbacks decided by Python
    truthiness. */
module PageMetadata {
  import opened Wrappers
  import opened PyBuiltins
  import opened Urls

  /** A page's front matter, restricted to string values. */
  type Meta = map<string, string>

  /** What the extractors read of a page. An unrendered page's `content`
      (None) is the empty string here: both are falsy. */
  datatype PageText = PageText(meta: Meta, content: string, markdown: string)

  /** `meta.get(key)` is truthy. */
  predicate HasTruthy(meta: Meta, key: string) {
    key in meta && Truthy(meta[key])
  }

  /** The feed description of a page: a truthy front-matter description as
      it is, else the first `charsCount` characters of the rendered content,
      else of the Markdown source, else the empty string. */
  function GetDescriptionOrAbstract(page: PageText, charsCount: int): (r: string)
    ensures HasTruthy(page.meta, "description") ==> r == page.meta["description"]
    ensures !HasTruthy(page.meta, "description") && Truthy(page.content) ==>
              IsPrefixSlice(r, page.content, charsCount)
    ensures !HasTruthy(page.meta, "description") && !Truthy(page.content) && Truthy(page.markdown) ==>
              IsPrefixSlice(r, page.markdown, charsCount)
    ensures !HasTruthy(page.meta, "description") && !Truthy(page.content) && !Truthy(page.markdown) ==>
              r == ""
  {
    if HasTruthy(page.meta, "description") then page.meta["description"]
    else if Truthy(page.content) then PrefixSlice(page.content, charsCount)
    else if Truthy(page.markdown) then PrefixSlice(page.markdown, charsCount)
    else ""
  }

  /** An abstract never exceeds the requested size, so a description longer
      than `charsCount` can only come from the front matter. */
  lemma AbstractWithinBudget(page: PageText, charsCount: nat)
    requires |GetDescriptionOrAbstract(page, charsCount)| > charsCount
    ensures HasTruthy(page.meta, "description")
    ensures GetDescriptionOrAbstract(page, charsCount) == page.meta["description"]
  {
  }

  /** `(image url, mime type)`; `url` is None exactly in the `(None, None)` case. */
  datatype ImageInfo = ImageInfo(url: Option<string>, mimeType: Option<string>)

  /** The front-matter value `get_image` works from: `image`, else
      `illustration`. */
  function ImageCandidate(meta: Meta): (c: Option<string>)
    ensures c.Some? <==> HasTruthy(meta, "image") || HasTruthy(meta, "illustration")
    ensures HasTruthy(meta, "image") ==> c == Some(meta["image"])
    ensures !HasTruthy(meta, "image") && HasTruthy(meta, "illustration") ==> c == Some(meta["illustration"])
    ensures c.Some? ==> Truthy(c.value)
  {
    if HasTruthy(meta, "image") then Some(meta["image"])
    else if HasTruthy(meta, "illustration") then Some(meta["illustration"])
    else None
  }

  /** The image of a page: the chosen candidate, made absolute with
      `build_url` (no query arguments) unless it starts with "http", and the
      MIME type `guessType` gives for the candidate as written. */
  function GetImage(meta: Meta, baseUrl: string, lib: UrlLibrary, guessType: string -> Option<string>): (r: ImageInfo)
    ensures r.url.None? <==> !HasTruthy(meta, "image") && !HasTruthy(meta, "illustration")
    ensures r.url.None? ==> r.mimeType.None?
    ensures r.url.Some? ==>
              var candidate := ImageCandidate(meta).value;
              && r.mimeType == guessType(candidate)
              && (StartsWith(candidate, "http") ==> r.url.value == candidate)
              && (!StartsWith(candidate, "http") ==>
                    r.url.value == lib.unparse(ComposeUrl(lib.parse(baseUrl), candidate, None, lib.encode)))
  {
    match ImageCandidate(meta)
    case None => ImageInfo(None, None)
    case Some(imgUrl) =>
      var mimeType := guessType(imgUrl);
      var resolved := if StartsWith(imgUrl, "http") then imgUrl
                      else lib.unparse(ComposeUrl(lib.parse(baseUrl), imgUrl, None, lib.encode));
      ImageInfo(Some(resolved), mimeType)
  }

  /** A truthy `image` decides the result whatever `illustration` holds. */
  lemma ImageOverridesIllustration(meta: Meta, illustration: string, baseUrl: string, lib: UrlLibrary, guessType: string -> Option<string>)
    requires HasTruthy(meta, "image")
    ensures GetImage(meta["illustration" := illustration], baseUrl, lib, guessType)
         == GetImage(meta, baseUrl, lib, guessType)
  {
  }

  /** The MIME type is guessed before resolution, so the base URL never
      affects it; nor does it affect an image given as an "http" URL. */
  lemma BaseUrlOnlyResolves(meta: Meta, baseA: string, baseB: string, lib: UrlLibrary, guessType: string -> Option<string>)
    ensures GetImage(meta, baseA, lib, guessType).mimeType == GetImage(meta, baseB, lib, guessType).mimeType
    ensures ImageCandidate(meta).Some? && StartsWith(ImageCandidate(meta).value, "http") ==>
              GetImage(meta, baseA, lib, guessType) == GetImage(meta, baseB, lib, guessType)
  {
  }

  /** The settings `guess_locale` consults: the top-level `locale` and the
      theme's variables (absent when the configuration has no theme). */
  datatype Config = Config(locale: Option<string>, theme: Option<map<string, Option<string>>>)

  predicate ThemeHas(config: Config, name: string) {
    config.theme.Some? && name in config.theme.value
  }

  /** The feed language: a truthy top-level `locale`; else the theme's
      `locale` variable when the theme defines one, whatever its value; else
      the theme's `language` variable likewise; else None. */
  function GuessLocale(config: Config): (r: Option<string>)
    ensures TruthyOption(config.locale) ==> r == config.locale
    ensures !TruthyOption(config.locale) && ThemeHas(config, "locale") ==>
              r == config.theme.value["locale"]
    ensures !TruthyOption(config.locale) && !ThemeHas(config, "locale") && ThemeHas(config, "language") ==>
              r == config.theme.value["language"]
    ensures r.Some? ==>
              || r == config.locale
              || (ThemeHas(config, "locale") && r == config.theme.value["locale"])
              || (ThemeHas(config, "language") && r == config.theme.value["language"])
    ensures r.None? <==>
              && !TruthyOption(config.locale)
              && (ThemeHas(config, "locale") ==> config.theme.value["locale"].None?)
              && (!ThemeHas(config, "locale") && ThemeHas(config, "language") ==>
                    config.theme.value["language"].None?)
  {
    if TruthyOption(config.locale) then config.locale
    else if ThemeHas(config, "locale") then config.theme.value["locale"]
    else if ThemeHas(config, "language") then config.theme.value["language"]
    else None
  }
}
