/**
  Wire-level naming conventions: the path delimiter inside a step's full name,
  the suspension markers a suspendable step's name ends with, the delimiter
  inside callback payloads and the metadata key holding the runner name.
 */
module Constants {
  import opened Strings

  const PathDelimiter: string := "/"
  const SuspendedMarker: string := PathDelimiter + "suspended" + PathDelimiter
  const CallbackMarker: string := SuspendedMarker + "callback"
  const PreCheckoutMarker: string := SuspendedMarker + "pre_checkout"
  const TextMarker: string := SuspendedMarker + "text"
  const PaymentMarker: string := SuspendedMarker + "successful_payment"
  const CallbackDataDelimiter: string := "|"
  const DelimiterChar: char := '|'
  const RunnerNameKey: string := "__telegramFlowRunnerName__"

  /** The four markers the executor matches against an inbound context. */
  const ResumeMarkers: seq<string> := [CallbackMarker, PreCheckoutMarker, TextMarker, PaymentMarker]

  lemma MarkerValues()
    ensures SuspendedMarker == "/suspended/"
    ensures CallbackMarker == "/suspended/callback"
    ensures PreCheckoutMarker == "/suspended/pre_checkout"
    ensures TextMarker == "/suspended/text"
    ensures PaymentMarker == "/suspended/successful_payment"
    ensures CallbackDataDelimiter == [DelimiterChar]
  {
  }

  /** No resume marker is a suffix of a different one. */
  lemma MarkersNotSuffixes(i: nat, j: nat)
    requires i < |ResumeMarkers| && j < |ResumeMarkers| && i != j
    ensures !EndsWith(ResumeMarkers[i], ResumeMarkers[j])
  {
    MarkerValues();
  }

  /** Hence a step name ends with at most one resume marker. */
  lemma {:induction false} AtMostOneMarker(name: string, i: nat, j: nat)
    requires i < |ResumeMarkers| && j < |ResumeMarkers|
    requires EndsWith(name, ResumeMarkers[i]) && EndsWith(name, ResumeMarkers[j])
    ensures i == j
  {
    if i != j {
      if |ResumeMarkers[j]| <= |ResumeMarkers[i]| {
        SuffixOfSuffix(name, ResumeMarkers[j], ResumeMarkers[i]);
        MarkersNotSuffixes(i, j);
      } else {
        SuffixOfSuffix(name, ResumeMarkers[i], ResumeMarkers[j]);
        MarkersNotSuffixes(j, i);
      }
    }
  }

  /** Every resume marker begins with the suspended-step marker and is free of the callback delimiter. */
  lemma MarkersShape(i: nat)
    requires i < |ResumeMarkers|
    ensures StartsWith(ResumeMarkers[i], SuspendedMarker)
    ensures DelimiterChar !in ResumeMarkers[i]
  {
    MarkerValues();
  }
}
