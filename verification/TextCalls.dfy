/**
 Tool calls found in plain text. The parsers differ in what they accept; all of them give each call the
 function type and an ID made of the tool's name, its position and a ticket of a process-wide counter.
 */
module TextCalls {
  import opened Payload
  import opened Decimal

  /** A call as a parser reads it off the text. */
  datatype Found = Found(name: string, args: string)

  method Itoa(n: nat) returns (digits: string)
    ensures digits == FormatNat(n)
  {
    if n == 0 {
      return "0";
    }
    digits := "";
    var rest := n;
    while rest > 0
      invariant FormatNat(n) == if rest == 0 then digits else FormatNat(rest) + digits
    {
      digits := [DIGITS[rest % 10]] + digits;
      rest := rest / 10;
    }
  }

  function TextCallId(name: string, position: nat, ticket: nat): CallId {
    name + "_" + FormatNat(position) + "_t" + FormatNat(ticket)
  }

  function ParsedCalls(found: seq<Found>, tickets: seq<nat>): seq<ToolCall>
    requires |found| == |tickets|
  {
    seq(|found|, i requires 0 <= i < |found| =>
      ToolCall(TextCallId(found[i].name, i, tickets[i]), FunctionCall, found[i].name, found[i].args))
  }

  predicate Ascending(tickets: seq<nat>) {
    forall i, j | 0 <= i < j < |tickets| :: tickets[i] < tickets[j]
  }

  /** The counter after a parse; before each of its tickets so many go to other parses. */
  function Drawn(last: nat, others: seq<nat>): nat {
    if others == [] then last else Drawn(last, others[..|others| - 1]) + others[|others| - 1] + 1
  }

  function Tickets(last: nat, others: seq<nat>): (tickets: seq<nat>)
    ensures |tickets| == |others|
  {
    if others == [] then [] else Tickets(last, others[..|others| - 1]) + [Drawn(last, others)]
  }

  lemma {:induction false} TicketsAscend(last: nat, others: seq<nat>)
    ensures Ascending(Tickets(last, others)) && last <= Drawn(last, others)
    ensures forall n | n in Tickets(last, others) :: last < n <= Drawn(last, others)
  {
    if others != [] {
      var init := Tickets(last, others[..|others| - 1]);
      TicketsAscend(last, others[..|others| - 1]);
      assert forall i | 0 <= i < |init| :: init[i] in init;
    }
  }

  /** The atomic counter: it begins at zero in every process, and other parses draw from it as well. */
  class TicketCounter {
    var last: nat

    constructor ()
      ensures last == 0
    {
      last := 0;
    }

    /** `others` tickets go to other parses first. */
    method UniqueTextCallID(name: string, position: nat, others: nat) returns (id: CallId)
      modifies this
      ensures last == old(last) + others + 1 && id == TextCallId(name, position, last)
    {
      last := last + others + 1;
      var p := Itoa(position);
      var n := Itoa(last);
      id := name + "_" + p + "_t" + n;
    }

    /** What every parser does with the calls it finds. */
    method NameCalls(found: seq<Found>, others: seq<nat>) returns (calls: seq<ToolCall>)
      requires |others| == |found|
      modifies this
      ensures last == Drawn(old(last), others) && calls == ParsedCalls(found, Tickets(old(last), others))
    {
      calls := [];
      ghost var start := last;
      for i := 0 to |found|
        invariant last == Drawn(start, others[..i])
        invariant calls == ParsedCalls(found[..i], Tickets(start, others[..i]))
      {
        assert others[..i + 1][..i] == others[..i];
        var id := UniqueTextCallID(found[i].name, i, others[i]);
        calls := calls + [ToolCall(id, FunctionCall, found[i].name, found[i].args)];
      }
      assert found[..|found|] == found && others[..|others|] == others;
    }
  }

  // ---- the IDs -----------------------------------------------------------------------------------

  lemma {:induction false} NoShorterEnd(x: string, d: string, y: string, e: string, mark: char)
    requires AllDigits(e) && !IsDigit(mark) && |d| < |e|
    ensures x + [mark] + d != y + [mark] + e
  {
    var s, t := x + [mark] + d, y + [mark] + e;
    if |s| == |t| {
      assert s[|x|] == mark;
      assert t[|x|] == e[|x| - |y| - 1];
    }
  }

  /** The digits at the end of a text are what follows its last other character. */
  lemma {:induction false} DigitsEnd(x: string, d: string, y: string, e: string, mark: char)
    requires AllDigits(d) && AllDigits(e) && !IsDigit(mark)
    requires x + [mark] + d == y + [mark] + e
    ensures x == y && d == e
  {
    if |d| < |e| {
      NoShorterEnd(x, d, y, e, mark);
    } else if |e| < |d| {
      NoShorterEnd(y, e, x, d, mark);
    } else {
      var s, t := x + [mark] + d, y + [mark] + e;
      assert x == s[..|x|] && y == t[..|y|];
      assert d == s[|x| + 1..] && e == t[|y| + 1..];
    }
  }

  lemma {:induction false} FormatIsInjective(m: nat, n: nat)
    requires FormatNat(m) == FormatNat(n)
    ensures m == n
  {
    FormatIsDigits(m);
    FormatIsDigits(n);
  }

  /** Two IDs are equal exactly when name, position and ticket are, whatever the names look like. */
  lemma {:induction false} IdsEqualIff(a: string, i: nat, m: nat, b: string, j: nat, n: nat)
    ensures TextCallId(a, i, m) == TextCallId(b, j, n) <==> a == b && i == j && m == n
  {
    if TextCallId(a, i, m) == TextCallId(b, j, n) {
      FormatIsDigits(i);
      FormatIsDigits(j);
      FormatIsDigits(m);
      FormatIsDigits(n);
      var x, y := a + "_" + FormatNat(i), b + "_" + FormatNat(j);
      assert TextCallId(a, i, m) == (x + "_") + "t" + FormatNat(m);
      assert TextCallId(b, j, n) == (y + "_") + "t" + FormatNat(n);
      DigitsEnd(x + "_", FormatNat(m), y + "_", FormatNat(n), 't');
      assert x == (x + "_")[..|x|] && y == (y + "_")[..|y|];
      DigitsEnd(a, FormatNat(i), b, FormatNat(j), '_');
      FormatIsInjective(i, j);
      FormatIsInjective(m, n);
    }
  }

  predicate AllFunctions(calls: seq<ToolCall>) {
    forall c | c in calls :: c.kind.FunctionCall?
  }

  /** The calls of one parse are all of function type, with usable IDs. */
  lemma {:induction false} ParsedAreUsable(found: seq<Found>, tickets: seq<nat>)
    requires |found| == |tickets| && Ascending(tickets)
    ensures AllFunctions(ParsedCalls(found, tickets)) && UsableIds(Ids(ParsedCalls(found, tickets)))
  {
    hide FormatNat;
    var ids := Ids(ParsedCalls(found, tickets));
    forall i, j | 0 <= i < j < |ids|
      ensures ids[i] != ids[j]
    {
      IdsEqualIff(found[i].name, i, tickets[i], found[j].name, j, tickets[j]);
    }
    assert forall i | 0 <= i < |ids| :: |ids[i]| > 0;
  }

  /** Two parses of one process never share an ID. */
  lemma {:induction false} ParsesShareNoId(found: seq<Found>, tickets: seq<nat>, later: seq<Found>, laterTickets: seq<nat>)
    requires |found| == |tickets| && |later| == |laterTickets|
    requires forall m, n | m in tickets && n in laterTickets :: m != n
    ensures forall id | id in Ids(ParsedCalls(found, tickets)) :: id !in Ids(ParsedCalls(later, laterTickets))
  {
    hide TextCallId;
    var ids, more := Ids(ParsedCalls(found, tickets)), Ids(ParsedCalls(later, laterTickets));
    forall i, j | 0 <= i < |ids| && 0 <= j < |more|
      ensures ids[i] != more[j]
    {
      assert tickets[i] in tickets && laterTickets[j] in laterTickets;
      IdsEqualIff(found[i].name, i, tickets[i], later[j].name, j, laterTickets[j]);
    }
  }

  /** So no call of a process gets the ID of an earlier one of the same process. */
  lemma {:induction false} ProcessNeverRepeats(last: nat, found: seq<Found>, others: seq<nat>,
                                               later: seq<Found>, from: nat, laterOthers: seq<nat>)
    requires |found| == |others| && |later| == |laterOthers| && from >= Drawn(last, others)
    ensures var first, second := ParsedCalls(found, Tickets(last, others)), ParsedCalls(later, Tickets(from, laterOthers));
      UsableIds(Ids(first)) && forall id | id in Ids(first) :: id !in Ids(second)
  {
    hide ParsedCalls;
    TicketsAscend(last, others);
    TicketsAscend(from, laterOthers);
    ParsedAreUsable(found, Tickets(last, others));
    ParsesShareNoId(found, Tickets(last, others), later, Tickets(from, laterOthers));
  }
}
