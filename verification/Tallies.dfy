/** Counting the tickets that a map sends to one connection, or to one job. */
module Tallies {

  /** The tickets that map to `c`, and how many they are. */
  ghost function TicketsOn(outstanding: map<nat, nat>, c: nat): set<nat> {
    set t | t in outstanding && outstanding[t] == c
  }

  ghost function CountOn(outstanding: map<nat, nat>, c: nat): nat { |TicketsOn(outstanding, c)| }

  lemma CountAfterStart(outstanding: map<nat, nat>, t: nat, c: nat, o: nat)
    requires t !in outstanding
    ensures CountOn(outstanding[t := c], o) == CountOn(outstanding, o) + (if o == c then 1 else 0)
    ensures |outstanding[t := c]| == |outstanding| + 1
  {
    TicketsAfterStart(outstanding, t, c, o);
    SizeAfterStart(outstanding, t, c);
  }

  lemma TicketsAfterStart(outstanding: map<nat, nat>, t: nat, c: nat, o: nat)
    requires t !in outstanding
    ensures TicketsOn(outstanding[t := c], o) ==
            if o == c then TicketsOn(outstanding, o) + {t} else TicketsOn(outstanding, o)
    ensures t !in TicketsOn(outstanding, o)
  {
    var after := outstanding[t := c];
    forall k ensures k in TicketsOn(after, o) <==> k in TicketsOn(outstanding, o) || (k == t && o == c) {
    }
  }

  lemma SizeAfterStart(outstanding: map<nat, nat>, t: nat, c: nat)
    requires t !in outstanding
    ensures |outstanding[t := c]| == |outstanding| + 1
  {
    assert outstanding[t := c].Keys == outstanding.Keys + {t};
  }

  lemma CountAfterEnd(outstanding: map<nat, nat>, t: nat, o: nat)
    requires t in outstanding
    ensures CountOn(outstanding - {t}, o) == CountOn(outstanding, o) - (if o == outstanding[t] then 1 else 0)
    ensures |outstanding - {t}| == |outstanding| - 1
  {
    var rest := outstanding - {t};
    assert rest[t := outstanding[t]] == outstanding;
    CountAfterStart(rest, t, outstanding[t], o);
  }

  lemma CountsAfterStart(outstanding: map<nat, nat>, t: nat, c: nat)
    requires t !in outstanding
    ensures forall o :: CountOn(outstanding[t := c], o) == CountOn(outstanding, o) + (if o == c then 1 else 0)
    ensures |outstanding[t := c]| == |outstanding| + 1
  {
    forall o ensures CountOn(outstanding[t := c], o) == CountOn(outstanding, o) + (if o == c then 1 else 0) {
      CountAfterStart(outstanding, t, c, o);
    }
    SizeAfterStart(outstanding, t, c);
  }

  lemma CountsAfterEnd(outstanding: map<nat, nat>, t: nat)
    requires t in outstanding
    ensures forall o :: CountOn(outstanding - {t}, o) == CountOn(outstanding, o) - (if o == outstanding[t] then 1 else 0)
    ensures |outstanding - {t}| == |outstanding| - 1
  {
    forall o ensures CountOn(outstanding - {t}, o) == CountOn(outstanding, o) - (if o == outstanding[t] then 1 else 0) {
      CountAfterEnd(outstanding, t, o);
    }
    CountAfterEnd(outstanding, t, outstanding[t]);
  }

  lemma NoneOn(outstanding: map<nat, nat>, c: nat)
    requires forall t :: t in outstanding ==> outstanding[t] != c
    ensures CountOn(outstanding, c) == 0
  {
    assert TicketsOn(outstanding, c) == {};
  }

  lemma AtMostOne(outstanding: map<nat, nat>, c: nat, t: nat, u: nat)
    requires CountOn(outstanding, c) <= 1
    requires t in outstanding && u in outstanding && outstanding[t] == c && outstanding[u] == c
    ensures t == u
  {
    SubsetSize({t, u}, TicketsOn(outstanding, c));
    assert t == u || |{t, u}| == 2;
  }

  lemma SubsetSize(a: set<nat>, b: set<nat>)
    requires a <= b
    ensures |a| <= |b|
  {
    if a != {} {
      var x :| x in a;
      SubsetSize(a - {x}, b - {x});
    }
  }
}
