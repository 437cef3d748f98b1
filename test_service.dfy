/** The example service that joins the values of topics `A` and `B` and
    publishes the result to `C`, or to `D` when `A` is 3. */
module TestService {
  import opened PyStr
  import opened Messages

  /** The topics the handler declares it publishes to. */
  const PubTopics: set<Topic> := {Named("C"), Named("D")}

  /** `concatenate`: `str(A) + " " + B` under a single key. */
  function Concatenate(a: int, b: string): (r: Publication)
    ensures |r| == 1
    ensures r.Keys <= PubTopics
    ensures Named("D") in r <==> a == 3
    ensures Named("C") in r <==> a != 3
    ensures forall t :: t in r ==> r[t] == StrVal(IntToString(a) + " " + b)
  {
    var result := IntToString(a) + " " + b;
    if a == 3 then map[Named("D") := StrVal(result)] else map[Named("C") := StrVal(result)]
  }
}
