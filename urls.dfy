/** URL composition (`Util.build_url`). A URL is handled as the six
    components `urllib.parse.urlparse` splits it into; the parser, the
    serialiser and the query encoder of the standard library are not
    modelled and are passed in as functions. */
module Urls {
  import opened Wrappers

  /** The components of a `ParseResult`, in its order. */
  datatype UrlParts = UrlParts(
    scheme: string,
    netloc: string,
    path: string,
    params: string,
    query: string,
    fragment: string)

  /** Query arguments in the insertion order of the dict that holds them. */
  type QueryArgs = seq<(string, string)>

  /** `urlparse`, `urlunparse` and `urlencode`. */
  datatype UrlLibrary = UrlLibrary(
    parse: string -> UrlParts,
    unparse: UrlParts -> string,
    encode: QueryArgs -> string)

  /** `args_dict` is truthy: given and not empty. */
  predicate ArgsGiven(args: Option<QueryArgs>) {
    args.Some? && args.value != []
  }

  /** The components `build_url` serialises: `path` appended verbatim to the
      base path, and the query replaced by the encoded arguments only when
      there are some. */
  function ComposeUrl(base: UrlParts, path: string, args: Option<QueryArgs>, encode: QueryArgs -> string): (r: UrlParts)
    ensures r.path == base.path + path
    ensures ArgsGiven(args) ==> r.query == encode(args.value)
    ensures !ArgsGiven(args) ==> r.query == base.query
    ensures r.scheme == base.scheme && r.netloc == base.netloc
    ensures r.params == base.params && r.fragment == base.fragment
  {
    var extended := base.(path := base.path + path);
    if ArgsGiven(args) then extended.(query := encode(args.value)) else extended
  }

  /** `build_url`: parse the base URL, extend the parsed path, overwrite the
      query when arguments are given, serialise. */
  method BuildUrl(lib: UrlLibrary, baseUrl: string, path: string, args: Option<QueryArgs>) returns (url: string)
    ensures url == lib.unparse(ComposeUrl(lib.parse(baseUrl), path, args, lib.encode))
  {
    var urlParts := lib.parse(baseUrl);
    urlParts := urlParts.(path := urlParts.path + path);
    if ArgsGiven(args) {
      urlParts := urlParts.(query := lib.encode(args.value));
    }
    url := lib.unparse(urlParts);
  }

  /** Composing twice with arguments keeps only the second arguments: the
      query is replaced, never merged. */
  lemma QueryReplacedNotMerged(base: UrlParts, path: string, first: QueryArgs, second: QueryArgs, encode: QueryArgs -> string)
    requires second != []
    ensures ComposeUrl(ComposeUrl(base, path, Some(first), encode), "", Some(second), encode)
         == ComposeUrl(base, path, Some(second), encode)
  {
  }

  /** Appending two path pieces one after the other without arguments is
      appending their concatenation. */
  lemma PathsAccumulate(base: UrlParts, first: string, second: string, args: Option<QueryArgs>, encode: QueryArgs -> string)
    ensures ComposeUrl(ComposeUrl(base, first, None, encode), second, args, encode)
         == ComposeUrl(base, first + second, args, encode)
  {
  }
}
