/**
 * The content-type classifier of the frontend (frontend/src/app/model/format.ts):
 * which body view a captured request gets, and whether its body can be
 * shown as code or interactively.
 *
 * The media-type library it calls (`isContentType`, and matching a
 * content type against a list) is not part of this model: it is a
 * parameter, `MediaTypes`, and matching a list means matching some
 * element of it.
 */
module Format {

  datatype BodyType = UrlForm | MultiPartForm | Json | Xml | Binary | Unknown

  /** The library: is this string a content type; does content type `ct` match entry `entry`. */
  datatype MediaTypes = MediaTypes(isContentType: string -> bool, matches: (string, string) -> bool)

  const PlainTypes: seq<string> := ["text/plain"]
  const JsonTypes: seq<string> := ["application/json", "application/ld+json"]
  const XmlTypes: seq<string> := ["application/xml", "text/html"]
  const CodeTypes: seq<string> := ["text/javascript"]
  const FormTypes: seq<string> := ["application/x-www-form-urlencoded"]
  const MultiPartFormTypes: seq<string> := ["multipart/form-data"]

  const ShowCodeTypes: seq<string> := PlainTypes + JsonTypes + XmlTypes + CodeTypes
  const ShowInteractiveTypes: seq<string> := JsonTypes + XmlTypes

  /** `matchesContentType(ct, list)`: `ct` matches some entry of `list`. */
  predicate MatchesAny(lib: MediaTypes, ct: string, list: seq<string>) {
    exists i :: 0 <= i < |list| && lib.matches(ct, list[i])
  }

  /** Matching a concatenation of lists means matching one of the parts. */
  lemma {:induction false} MatchesAnyConcat(lib: MediaTypes, ct: string, a: seq<string>, b: seq<string>)
    ensures MatchesAny(lib, ct, a + b) <==> MatchesAny(lib, ct, a) || MatchesAny(lib, ct, b)
  {
    if MatchesAny(lib, ct, a + b) {
      var i :| 0 <= i < |a + b| && lib.matches(ct, (a + b)[i]);
      if i < |a| {
        assert (a + b)[i] == a[i];
      } else {
        assert (a + b)[i] == b[i - |a|];
      }
    }
    if MatchesAny(lib, ct, a) {
      var i :| 0 <= i < |a| && lib.matches(ct, a[i]);
      assert (a + b)[i] == a[i];
    }
    if MatchesAny(lib, ct, b) {
      var i :| 0 <= i < |b| && lib.matches(ct, b[i]);
      assert (a + b)[|a| + i] == b[i];
    }
  }

  /**
   * `canShowCode`: a content type of the plain, JSON, XML or code lists.
   * Every body classified Json or Xml can be shown as code.
   */
  function CanShowCode(lib: MediaTypes, ct: string): (b: bool)
    ensures b <==> lib.isContentType(ct) &&
                   (MatchesAny(lib, ct, PlainTypes) || MatchesAny(lib, ct, JsonTypes)
                    || MatchesAny(lib, ct, XmlTypes) || MatchesAny(lib, ct, CodeTypes))
    ensures GetBodyType(lib, ct) == Json || GetBodyType(lib, ct) == Xml ==> b
  {
    MatchesAnyConcat(lib, ct, PlainTypes, JsonTypes);
    MatchesAnyConcat(lib, ct, PlainTypes + JsonTypes, XmlTypes);
    MatchesAnyConcat(lib, ct, PlainTypes + JsonTypes + XmlTypes, CodeTypes);
    lib.isContentType(ct) && MatchesAny(lib, ct, ShowCodeTypes)
  }

  /**
   * `canShowInteractive`: a content type of the JSON or XML lists. Exactly
   * the bodies classified Json or Xml, unless a form list matches first.
   */
  function CanShowInteractive(lib: MediaTypes, ct: string): (b: bool)
    ensures b <==> lib.isContentType(ct) && (MatchesAny(lib, ct, JsonTypes) || MatchesAny(lib, ct, XmlTypes))
    ensures GetBodyType(lib, ct) == Json || GetBodyType(lib, ct) == Xml ==> b
    ensures b && !MatchesAny(lib, ct, FormTypes) && !MatchesAny(lib, ct, MultiPartFormTypes) ==>
              GetBodyType(lib, ct) == Json || GetBodyType(lib, ct) == Xml
  {
    MatchesAnyConcat(lib, ct, JsonTypes, XmlTypes);
    lib.isContentType(ct) && MatchesAny(lib, ct, ShowInteractiveTypes)
  }

  /**
   * `getBodyType`: a decision list, first match wins. Json is tried first,
   * then UrlForm (tried twice, the second time in vain), MultiPartForm and
   * Xml; anything else, and anything that is not a content type, is
   * Unknown. Binary is never produced.
   */
  function GetBodyType(lib: MediaTypes, ct: string): (b: BodyType)
    ensures b != Binary
    ensures !lib.isContentType(ct) ==> b == Unknown
    ensures b == Json <==> lib.isContentType(ct) && MatchesAny(lib, ct, JsonTypes)
    ensures b == UrlForm <==> lib.isContentType(ct) && !MatchesAny(lib, ct, JsonTypes) && MatchesAny(lib, ct, FormTypes)
    ensures b == MultiPartForm <==>
              lib.isContentType(ct) && !MatchesAny(lib, ct, JsonTypes) && !MatchesAny(lib, ct, FormTypes)
              && MatchesAny(lib, ct, MultiPartFormTypes)
    ensures b == Xml <==>
              lib.isContentType(ct) && !MatchesAny(lib, ct, JsonTypes) && !MatchesAny(lib, ct, FormTypes)
              && !MatchesAny(lib, ct, MultiPartFormTypes) && MatchesAny(lib, ct, XmlTypes)
    ensures b == Unknown <==>
              !lib.isContentType(ct)
              || (!MatchesAny(lib, ct, JsonTypes) && !MatchesAny(lib, ct, FormTypes)
                  && !MatchesAny(lib, ct, MultiPartFormTypes) && !MatchesAny(lib, ct, XmlTypes))
  {
    if !lib.isContentType(ct) then Unknown
    else if MatchesAny(lib, ct, JsonTypes) then Json
    else if MatchesAny(lib, ct, FormTypes) then UrlForm
    else if MatchesAny(lib, ct, FormTypes) then UrlForm
    else if MatchesAny(lib, ct, MultiPartFormTypes) then MultiPartForm
    else if MatchesAny(lib, ct, XmlTypes) then Xml
    else Unknown
  }

  /** Everything shown interactively can be shown as code: the interactive list is part of the code list. */
  lemma InteractiveImpliesCode(lib: MediaTypes, ct: string)
    ensures CanShowInteractive(lib, ct) ==> CanShowCode(lib, ct)
  {
    if CanShowInteractive(lib, ct) {
      var i :| 0 <= i < |ShowInteractiveTypes| && lib.matches(ct, ShowInteractiveTypes[i]);
      assert ShowCodeTypes[i + |PlainTypes|] == ShowInteractiveTypes[i];
    }
  }

  /** A library that matches a content type exactly against the list entries. */
  ghost predicate ExactMatching(lib: MediaTypes) {
    forall c, p :: lib.matches(c, p) <==> c == p
  }

  /**
   * Under exact matching, `text/plain` and `text/javascript` can be shown
   * as code (not interactively) yet classify as Unknown, while the listed
   * types get their own body type.
   */
  lemma PlainAndScriptAreUnknown(lib: MediaTypes, ct: string)
    requires ExactMatching(lib)
    requires ct == "text/plain" || ct == "text/javascript"
    requires lib.isContentType(ct)
    ensures CanShowCode(lib, ct) && !CanShowInteractive(lib, ct)
    ensures GetBodyType(lib, ct) == Unknown
  {
    if ct == "text/plain" {
      assert lib.matches(ct, ShowCodeTypes[0]);
    } else {
      assert lib.matches(ct, ShowCodeTypes[5]);
    }
  }

  /** Under exact matching each listed type gets the body type of its list. */
  lemma ListedTypesClassify(lib: MediaTypes, ct: string)
    requires ExactMatching(lib)
    requires lib.isContentType(ct)
    ensures ct in JsonTypes ==> GetBodyType(lib, ct) == Json
    ensures ct in FormTypes ==> GetBodyType(lib, ct) == UrlForm
    ensures ct in MultiPartFormTypes ==> GetBodyType(lib, ct) == MultiPartForm
    ensures ct in XmlTypes ==> GetBodyType(lib, ct) == Xml
  {
    if ct in JsonTypes {
      assert lib.matches(ct, ct);
    } else if ct in FormTypes {
      assert lib.matches(ct, FormTypes[0]);
    } else if ct in MultiPartFormTypes {
      assert lib.matches(ct, MultiPartFormTypes[0]);
    } else if ct in XmlTypes {
      assert lib.matches(ct, ct);
      assert ct == XmlTypes[0] || ct == XmlTypes[1];
    }
  }
}
