/**
 * The deterministic stand-in classifier mock_ai_predict of app.py.
 *
 * Keywords in the lower-cased file name decide first ("fake" before "real");
 * otherwise the SHA-256 of the lower-cased name, read as an integer, decides
 * by its parity and sets the confidence from its remainder modulo 2000.  The
 * hash is the uninterpreted function `hashOf`; confidences are integer
 * hundredths of a percent (98.50 is 9850).
 */
module MockClassifier {

  datatype Prediction = Prediction(isFake: bool, confidence: nat)

  const KEYWORD_CONFIDENCE_FAKE: nat := 9850
  const KEYWORD_CONFIDENCE_REAL: nat := 9620

  /** str.lower on one character, for the ASCII letters. */
  function LowerChar(c: char): char
  {
    if 'A' <= c <= 'Z' then (c as int - 'A' as int + 'a' as int) as char else c
  }

  /** str.lower, character by character. */
  function Lower(s: string): (r: string)
    ensures |r| == |s|
    ensures forall i :: 0 <= i < |s| ==> r[i] == LowerChar(s[i])
  {
    if s == [] then [] else [LowerChar(s[0])] + Lower(s[1..])
  }

  lemma LowerIdempotent(s: string)
    ensures Lower(Lower(s)) == Lower(s)
  {
  }

  /** Python's `t in s` for strings: t occurs in s as a substring. */
  predicate Contains(s: string, t: string)
  {
    exists i :: 0 <= i <= |s| - |t| && OccursAt(s, t, i)
  }

  predicate OccursAt(s: string, t: string, i: int)
    requires 0 <= i <= |s| - |t|
  {
    s[i..i + |t|] == t
  }

  /** The prediction from the lower-cased name alone. */
  function PredictLowered(name: string, hashOf: string -> nat): Prediction
  {
    if Contains(name, "fake") then Prediction(true, KEYWORD_CONFIDENCE_FAKE)
    else if Contains(name, "real") then Prediction(false, KEYWORD_CONFIDENCE_REAL)
    else
      var h := hashOf(name);
      Prediction(h % 2 == 0, 8000 + h % 2000)
  }

  function MockAiPredict(filename: string, hashOf: string -> nat): (p: Prediction)
    ensures Contains(Lower(filename), "fake") ==> p == Prediction(true, 9850)
    ensures !Contains(Lower(filename), "fake") && Contains(Lower(filename), "real") ==> p == Prediction(false, 9620)
    ensures !Contains(Lower(filename), "fake") && !Contains(Lower(filename), "real") ==>
              (p.isFake <==> hashOf(Lower(filename)) % 2 == 0)
    ensures 8000 <= p.confidence <= 9999
  {
    PredictLowered(Lower(filename), hashOf)
  }

  /** Without keywords the confidence is 80 plus the hash's remainder modulo 2000, in hundredths. */
  lemma HashedConfidence(filename: string, hashOf: string -> nat)
    requires !Contains(Lower(filename), "fake") && !Contains(Lower(filename), "real")
    ensures MockAiPredict(filename, hashOf).confidence == 8000 + hashOf(Lower(filename)) % 2000
  {
  }

  /** Names that lower-case alike get the same prediction: the result is case-insensitive and stable. */
  lemma SameLoweredSamePrediction(a: string, b: string, hashOf: string -> nat)
    requires Lower(a) == Lower(b)
    ensures MockAiPredict(a, hashOf) == MockAiPredict(b, hashOf)
  {
  }

  /** Lower-casing the name first changes nothing. */
  lemma CaseInsensitive(filename: string, hashOf: string -> nat)
    ensures MockAiPredict(Lower(filename), hashOf) == MockAiPredict(filename, hashOf)
  {
    LowerIdempotent(filename);
  }

  /** An upper-case letter and its lower-case form give the same prediction anywhere in the name. */
  lemma LetterCaseIrrelevant(filename: string, i: nat, hashOf: string -> nat)
    requires i < |filename| && 'a' <= filename[i] <= 'z'
    ensures MockAiPredict(filename[i := (filename[i] as int - 32) as char], hashOf) == MockAiPredict(filename, hashOf)
  {
    var upper := filename[i := (filename[i] as int - 32) as char];
    assert Lower(upper) == Lower(filename) by {
      assert forall j :: 0 <= j < |filename| ==> Lower(upper)[j] == Lower(filename)[j];
    }
    SameLoweredSamePrediction(upper, filename, hashOf);
  }
}
