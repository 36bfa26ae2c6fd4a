/**
  The display rules of the lead card: the colour of the status badge, the
  colour of the score badge and when it is shown, and the icon of the lead
  source. Tables are looked up by the property key JavaScript uses, the
  text of the value.
 */
module LeadCard {
  import opened Wrappers
  import opened Js
  import opened JsText

  const Gray := "bg-gray-100 text-gray-800"
  const Green := "bg-green-100 text-green-800"
  const Yellow := "bg-yellow-100 text-yellow-800"
  const HelpIcon := "HelpCircle"

  /** The status colours; any other status is gray. */
  const StatusColors: map<string, string> := map[
    "New" := "bg-blue-100 text-blue-800",
    "Contacted" := Yellow,
    "Qualified" := Green,
    "Unqualified" := "bg-red-100 text-red-800",
    "Converted" := "bg-purple-100 text-purple-800"]

  /** The source icons; any other source shows the help icon. */
  const SourceIcons: map<string, string> := map["Website" := "Globe", "Referral" := "Users", "Social Media" := "Share2"]

  /** `colors[status] || gray` */
  function StatusColor(status: JsValue): (r: string)
    ensures r == Gray <==> ToString(status) !in StatusColors
    ensures ToString(status) in StatusColors ==> r == StatusColors[ToString(status)]
  {
    var key := ToString(status);
    if key in StatusColors then StatusColors[key] else Gray
  }

  /** The badge text: `lead.lead_status_c || 'New'`. */
  function StatusLabel(status: JsValue): (r: JsValue)
    ensures Truthy(r)
    ensures Truthy(status) ==> r == status
  {
    Or(status, Str("New"))
  }

  /** A lead without a status is labelled "New" but coloured gray, not in
      the colour of "New": the label defaults, the colour lookup does not. */
  lemma MissingStatusLabelAndColour()
    ensures StatusLabel(Undefined) == Str("New") && StatusColor(Undefined) == Gray
    ensures StatusColor(Str("New")) != Gray
  {
    assert ToString(Undefined) == "undefined";
  }

  /** `Number(s)` for the text forms a score takes: surrounding white space
      is ignored, "" is 0, otherwise an optional sign, digits and an optional
      fraction must make up the whole text; anything else is NaN (`None`). */
  function StringToNumber(s: string): (r: Option<real>)
    ensures Trim(s) == "" ==> r == Some(0.0)
  {
    var t := Trim(s);
    if t == "" then Some(0.0)
    else
      var (sign, body) := SplitSign(t);
      var ip := PrefixWhile(body, IsDigit);
      var rest := body[|ip|..];
      var fp := if |rest| > 0 && rest[0] == '.' then rest[1..] else "";
      if (rest == "" || rest[0] == '.') && PrefixWhile(fp, IsDigit) == fp && (ip != "" || fp != "") then
        Some(LiteralValue(sign, ip, fp))
      else None
  }

  /** ToNumber, as `score >= 75` applies it to the score. */
  function NumberOf(v: JsValue): (r: Option<real>)
    ensures v.Num? ==> r == Some(v.x)
    ensures v.Undefined? || v.NaN? ==> r == None
    ensures v.Null? ==> r == Some(0.0)
  {
    match v
    case Undefined => None
    case Null => Some(0.0)
    case Bool(b) => Some(if b then 1.0 else 0.0)
    case Num(x) => Some(x)
    case NaN => None
    case Str(s) => StringToNumber(s)
    case _ => StringToNumber(ToString(v))
  }

  /** `getScoreColor`: green from 75, yellow from 50, gray below (and for NaN). */
  function ScoreColor(score: JsValue): (r: string)
    ensures NumberOf(score).Some? && NumberOf(score).value >= 75.0 ==> r == Green
    ensures NumberOf(score).Some? && 50.0 <= NumberOf(score).value < 75.0 ==> r == Yellow
    ensures NumberOf(score).Some? && NumberOf(score).value < 50.0 ==> r == Gray
    ensures NumberOf(score).None? ==> r == Gray
  {
    match NumberOf(score)
    case None => Gray
    case Some(x) => if x >= 75.0 then Green else if x >= 50.0 then Yellow else Gray
  }

  /** The rank of a score colour: gray, yellow, green. */
  function ScoreRank(color: string): nat {
    if color == Green then 2 else if color == Yellow then 1 else 0
  }

  /** A higher score never gets a lower colour. */
  lemma ScoreColorMonotone(a: real, b: real)
    requires a <= b
    ensures ScoreRank(ScoreColor(Num(a))) <= ScoreRank(ScoreColor(Num(b)))
  {
  }

  /** `lead.lead_score_c !== null && lead.lead_score_c !== undefined` */
  predicate ScoreShown(score: JsValue) {
    !Nullish(score)
  }

  /** A score of 0 is shown (in gray); a missing score is not. */
  lemma ZeroScoreShown()
    ensures ScoreShown(Num(0.0)) && ScoreColor(Num(0.0)) == Gray
    ensures !ScoreShown(Null) && !ScoreShown(Undefined)
  {
  }

  /** `icons[source] || 'HelpCircle'` */
  function SourceIcon(source: JsValue): (r: string)
    ensures r == HelpIcon <==> ToString(source) !in SourceIcons
    ensures ToString(source) in SourceIcons ==> r == SourceIcons[ToString(source)]
  {
    var key := ToString(source);
    if key in SourceIcons then SourceIcons[key] else HelpIcon
  }
}
