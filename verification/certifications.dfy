/** The plain certifications gallery (components/Certifications.tsx): each
    card's colours are chosen from keywords in the issuer's name. */
module Certifications {
  import opened Text
  import opened Palette

  datatype CertGradient = CertGradient(from: string, to: string, color: Color)

  const PurpleWords: seq<string> := ["ai", "gen", "anthropic"]
  const BlueWords: seq<string> := ["oracle", "oci", "cloud"]
  const GreenWords: seq<string> := ["tester", "test"]

  /** `getCertGradient(issuer)`: keyword groups on the lower-cased issuer,
      tried in the order purple, blue, green, with cyan for everything else. */
  function GetCertGradient(issuer: string): (r: CertGradient)
    ensures r.color == Purple <==> ContainsAny(ToLower(issuer), PurpleWords)
    ensures r.color == Blue <==> !ContainsAny(ToLower(issuer), PurpleWords) && ContainsAny(ToLower(issuer), BlueWords)
    ensures r.color == Green <==> !ContainsAny(ToLower(issuer), PurpleWords) && !ContainsAny(ToLower(issuer), BlueWords)
                                  && ContainsAny(ToLower(issuer), GreenWords)
    ensures r.color == Cyan <==> !ContainsAny(ToLower(issuer), PurpleWords + BlueWords + GreenWords)
    ensures r == Stops(r.color)
  {
    var lower := ToLower(issuer);
    var color :=
      if ContainsAny(lower, PurpleWords) then Purple
      else if ContainsAny(lower, BlueWords) then Blue
      else if ContainsAny(lower, GreenWords) then Green
      else Cyan;
    ContainsAnyAppend(lower, PurpleWords, BlueWords);
    ContainsAnyAppend(lower, PurpleWords + BlueWords, GreenWords);
    Stops(color)
  }

  /** The two hex stops of each colour. */
  function Stops(c: Color): (r: CertGradient)
    ensures r.color == c
  {
    match c
    case Purple => CertGradient("#8B5CF6", "#A78BFA", Purple)
    case Blue => CertGradient("#3B82F6", "#60A5FA", Blue)
    case Green => CertGradient("#10B981", "#34D399", Green)
    case Cyan => CertGradient("#06B6D4", "#22D3EE", Cyan)
  }

  /** The "tester" test adds nothing: any issuer containing it contains "test". */
  lemma GreenIffTest(issuer: string)
    ensures ContainsAny(ToLower(issuer), GreenWords) <==> Contains(ToLower(issuer), "test")
  {
    var lower := ToLower(issuer);
    if Contains(lower, "tester") {
      assert "tester" == "test" + "er";
      ContainsPrefix(lower, "test", "er");
    }
    assert GreenWords[1] == "test";
  }

  /** Examples: the AI check wins over the cloud check, and the issuer name is
      matched regardless of case. */
  lemma GetCertGradientExamples()
    ensures GetCertGradient("Oracle").color == Blue
    ensures GetCertGradient("OpenAI Cloud").color == Purple
  {
    var oracle := ToLower("Oracle");
    assert oracle == "oracle";
    NotContains(oracle, "ai", 0);
    NotContains(oracle, "gen", 0);
    NotContains(oracle, "anthropic", 0);
    assert !ContainsAny(oracle, PurpleWords);
    ContainsAt(oracle, "oracle", 0);
    var open := ToLower("OpenAI Cloud");
    assert open == "openai cloud";
    assert OccursAt(open, "ai", 4);
  }
}
