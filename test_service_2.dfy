/** The example service that drives the other one: at the start of a
    turn it sends `A` = 2, 3, 4, each followed by a `B` message, and it
    ends the dialog when the text it receives on `C` holds a `4`. */
module TestService2 {
  import opened Wrappers
  import opened PyStr
  import opened Messages
  import TestService

  const Dropped: string := "messages dropped!"

  function SendA(a: int): (r: Publication)
    ensures r.Keys == {Named("A")} && r[Named("A")] == IntVal(a)
  {
    map[Named("A") := IntVal(a)]
  }

  function SendB(): (r: Publication)
    ensures r.Keys == {Named("B")} && r[Named("B")] == StrVal(Dropped)
  {
    map[Named("B") := StrVal(Dropped)]
  }

  /** `print_c`: the end of the dialog exactly when `c` holds a `4`. */
  function PrintC(c: string): (r: Option<Publication>)
    ensures r.Some? <==> '4' in c
    ensures r.Some? ==> r.value == map[DialogEnd := BoolVal(true)]
  {
    if '4' in c then Some(map[DialogEnd := BoolVal(true)]) else None
  }

  /** `print_d`: its return is commented out, so it never publishes. */
  function PrintD(d: string): (r: Option<Publication>)
    ensures r.None?
  {
    None
  }

  /** The messages of one turn: `A` = 2, 3, 4 in increasing order, each
      followed by one `B`. */
  function TurnMessages(): seq<Publication> {
    [SendA(2), SendB(), SendA(3), SendB(), SendA(4), SendB()]
  }

  /** `turn_start`: for `a` from 2 while below 5, one `A` message and then
      one `B` message. The pauses between them are left out. */
  method TurnStart() returns (sent: seq<Publication>)
    ensures sent == TurnMessages()
    ensures forall k :: 0 <= k < 3 ==> sent[2 * k] == SendA(k + 2) && sent[2 * k + 1] == SendB()
  {
    sent := [];
    var a := 2;
    while a < 5
      invariant 2 <= a <= 5
      invariant |sent| == 2 * (a - 2)
      invariant forall k :: 0 <= k < a - 2 ==> sent[2 * k] == SendA(k + 2) && sent[2 * k + 1] == SendB()
    {
      sent := sent + [SendA(a)];
      sent := sent + [SendB()];
      a := a + 1;
    }
    assert sent[2 * 0] == SendA(2) && sent[2 * 1] == SendA(3) && sent[2 * 2] == SendA(4);
    assert sent[2 * 0 + 1] == SendB() && sent[2 * 1 + 1] == SendB() && sent[2 * 2 + 1] == SendB();
  }

  /** The handler subscribed to the topic of a publication of the other
      service: `print_c` for `C`, `print_d` for `D`. */
  function Deliver(p: Publication): Option<Publication> {
    if Named("C") in p && p[Named("C")].StrVal? then PrintC(p[Named("C")].s)
    else if Named("D") in p && p[Named("D")].StrVal? then PrintD(p[Named("D")].s)
    else None
  }

  /** `concatenate` applied to an `A` message and the `B` message after it. */
  function Combine(pa: Publication, pb: Publication): Publication
    requires Named("A") in pa && pa[Named("A")].IntVal?
    requires Named("B") in pb && pb[Named("B")].StrVal?
  {
    TestService.Concatenate(pa[Named("A")].i, pb[Named("B")].s)
  }

  /** The answer of the other service to an `A` message and the `B`
      message after it: for `A` other than 3 the joined text reaches
      `print_c`, for `A` = 3 it reaches `print_d`. */
  lemma Answer(a: int)
    ensures var joined := Combine(SendA(a), SendB());
      && (a != 3 ==> Named("C") in joined && Deliver(joined) == PrintC(IntToString(a) + " " + Dropped))
      && (a == 3 ==> Named("D") in joined && Deliver(joined).None?)
  {
    var joined := Combine(SendA(a), SendB());
    assert joined == TestService.Concatenate(a, Dropped);
    if a != 3 {
      assert Named("D") !in joined;
    }
  }

  /** Neither `str(2)` nor the dropped-messages text holds a `4`. */
  lemma NoFourInTwo()
    ensures '4' !in IntToString(2) + " " + Dropped
  {
    assert IntToString(2) + " " + Dropped == "2 messages dropped!";
  }

  /** The scenario of one turn: each `A` sent, joined with the `B` sent
      after it, is published to `C`, `D` and `C` in turn, and only the
      third publication ends the dialog. */
  lemma TurnScenario()
    ensures var m := TurnMessages();
      var joined := [Combine(m[0], m[1]), Combine(m[2], m[3]), Combine(m[4], m[5])];
      && Named("C") in joined[0] && Named("D") in joined[1] && Named("C") in joined[2]
      && Deliver(joined[0]).None? && Deliver(joined[1]).None?
      && Deliver(joined[2]) == Some(map[DialogEnd := BoolVal(true)])
  {
    Answer(2);
    Answer(3);
    Answer(4);
    NoFourInTwo();
    assert IntToString(4) == "4";
    assert (IntToString(4) + " " + Dropped)[0] == '4';
  }
}
