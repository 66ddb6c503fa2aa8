/** `ArangoAnalyzerType`: the kinds of ArangoSearch analyzers and the names
    they are written as on the wire (their `EnumMember` values). */
module AnalyzerTypes {
  import opened Common

  datatype ArangoAnalyzerType =
    | Identity | Delimiter | Stem | Norm | Ngram | Text | Collation
    | Aql | Pipeline | Stopwords | Segmentation | GeoJson | GeoPoint

  /** The enum member's own name. */
  function MemberName(t: ArangoAnalyzerType): string
  {
    match t
    case Identity => "Identity"
    case Delimiter => "Delimiter"
    case Stem => "Stem"
    case Norm => "Norm"
    case Ngram => "Ngram"
    case Text => "Text"
    case Collation => "Collation"
    case Aql => "Aql"
    case Pipeline => "Pipeline"
    case Stopwords => "Stopwords"
    case Segmentation => "Segmentation"
    case GeoJson => "GeoJson"
    case GeoPoint => "GeoPoint"
  }

  /** A non-empty string of lower-case ASCII letters. */
  predicate IsLowerWord(s: string)
  {
    |s| > 0 && forall i :: 0 <= i < |s| ==> 'a' <= s[i] <= 'z'
  }

  /** The wire name (`EnumMember(Value = …)`) of each analyzer type. */
  function WireName(t: ArangoAnalyzerType): (s: string)
    ensures IsLowerWord(s)
  {
    match t
    case Identity => "identity"
    case Delimiter => "delimiter"
    case Stem => "stem"
    case Norm => "norm"
    case Ngram => "ngram"
    case Text => "text"
    case Collation => "collation"
    case Aql => "aql"
    case Pipeline => "pipeline"
    case Stopwords => "stopwords"
    case Segmentation => "segmentation"
    case GeoJson => "geojson"
    case GeoPoint => "geopoint"
  }

  /** Reading a wire name back: the analyzer type written that way, if any. */
  function Parse(s: string): (r: Option<ArangoAnalyzerType>)
  {
    if s == "identity" then Some(Identity)
    else if s == "delimiter" then Some(Delimiter)
    else if s == "stem" then Some(Stem)
    else if s == "norm" then Some(Norm)
    else if s == "ngram" then Some(Ngram)
    else if s == "text" then Some(Text)
    else if s == "collation" then Some(Collation)
    else if s == "aql" then Some(Aql)
    else if s == "pipeline" then Some(Pipeline)
    else if s == "stopwords" then Some(Stopwords)
    else if s == "segmentation" then Some(Segmentation)
    else if s == "geojson" then Some(GeoJson)
    else if s == "geopoint" then Some(GeoPoint)
    else None
  }

  /** Every wire name reads back as its analyzer type. */
  lemma ParseWireName(t: ArangoAnalyzerType)
    ensures Parse(WireName(t)) == Some(t)
  {
  }

  /** Only wire names read back, each as the type written that way. */
  lemma WireNameOfParse(s: string)
    ensures Parse(s).Some? ==> WireName(Parse(s).value) == s
  {
  }

  /** The wire names are pairwise distinct. */
  lemma WireNamesDistinct(a: ArangoAnalyzerType, b: ArangoAnalyzerType)
    ensures WireName(a) == WireName(b) ==> a == b
  {
    ParseWireName(a);
    ParseWireName(b);
  }

  /** A string whose characters lower-case one by one to those of `w`
      lower-cases to `w`. */
  lemma LowerCaseOf(m: string, w: string)
    requires |m| == |w|
    requires forall i :: 0 <= i < |m| ==> ToLowerAscii(m[i]) == w[i]
    ensures ToLower(m) == w
  {
  }

  /** Each wire name is the member name in lower case. */
  lemma WireNameIsLowerMemberName(t: ArangoAnalyzerType)
    ensures WireName(t) == ToLower(MemberName(t))
  {
    match t
    case Identity => LowerCaseOf("Identity", "identity");
    case Delimiter => LowerCaseOf("Delimiter", "delimiter");
    case Stem => LowerCaseOf("Stem", "stem");
    case Norm => LowerCaseOf("Norm", "norm");
    case Ngram => LowerCaseOf("Ngram", "ngram");
    case Text => LowerCaseOf("Text", "text");
    case Collation => LowerCaseOf("Collation", "collation");
    case Aql => LowerCaseOf("Aql", "aql");
    case Pipeline => LowerCaseOf("Pipeline", "pipeline");
    case Stopwords => LowerCaseOf("Stopwords", "stopwords");
    case Segmentation => LowerCaseOf("Segmentation", "segmentation");
    case GeoJson => LowerCaseOf("GeoJson", "geojson");
    case GeoPoint => LowerCaseOf("GeoPoint", "geopoint");
  }
}
