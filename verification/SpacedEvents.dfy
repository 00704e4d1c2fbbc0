/** The event found in a cut payload with any white space, against the event of its complete fields: exactly when it is the right one. */
module SpacedEvents {
  import opened Prelude
  import opened EventScan
  import opened SpacedScan

  // ---- the complete fields

  /** How many of the fields have their value within the first `n` characters. */
  function CountWhole(fields: seq<Field>, start: nat, n: nat): (c: nat)
    ensures c <= |fields|
  {
    if fields == [] then 0 else
      var end := start + |FieldText(fields[0])|;
      if end <= n then 1 + CountWhole(fields[1..], end + |fields[0].after| + 1, n) else 0
  }

  function Whole(lead: string, fields: seq<Field>, n: nat): seq<Field> {
    fields[..CountWhole(fields, |lead| + 1, n)]
  }

  /** Every event field, its value a string. */
  function Events(fields: seq<Field>, keys: seq<string>): Found {
    if fields == [] then [] else
      (if fields[0].key in keys && fields[0].value.Text? then [(fields[0].key, fields[0].value.s)] else []) + Events(fields[1..], keys)
  }

  /** No event field comes after one whose value is followed by white space. */
  predicate NoneHidden(fields: seq<Field>, keys: seq<string>) {
    forall i, j :: 0 <= i < j < |fields| && fields[i].key in keys && fields[i].after != "" ==> fields[j].key !in keys
  }

  predicate NoEventKey(fields: seq<Field>, keys: seq<string>) {
    forall i :: 0 <= i < |fields| ==> fields[i].key !in keys
  }

  predicate EventsAreTexts(fields: seq<Field>, keys: seq<string>) {
    forall i :: 0 <= i < |fields| && fields[i].key in keys ==> fields[i].value.Text?
  }

  lemma {:induction false} NoEvents(fields: seq<Field>, keys: seq<string>)
    requires EventsAreTexts(fields, keys)
    ensures Events(fields, keys) == [] <==> NoEventKey(fields, keys)
  {
    if fields != [] {
      NoEvents(fields[1..], keys);
      assert forall i :: 0 < i < |fields| ==> fields[i] == fields[1..][i - 1];
    }
  }

  lemma HiddenTail(fields: seq<Field>, keys: seq<string>)
    requires fields != []
    ensures NoneHidden(fields, keys) <==>
      NoneHidden(fields[1..], keys) && (fields[0].key in keys && fields[0].after != "" ==> NoEventKey(fields[1..], keys))
    ensures NoEventKey(fields[1..], keys) ==> NoneHidden(fields[1..], keys)
  {
    var rest := fields[1..];
    assert forall i :: 0 < i < |fields| ==> fields[i] == rest[i - 1];
    if NoneHidden(fields, keys) {
      forall i, j | 0 <= i < j < |rest| && rest[i].key in keys && rest[i].after != "" ensures rest[j].key !in keys {
        assert rest[i] == fields[i + 1] && rest[j] == fields[j + 1];
      }
      forall j | 0 <= j < |rest| && fields[0].key in keys && fields[0].after != "" ensures rest[j].key !in keys {
        assert rest[j] == fields[j + 1];
      }
    }
  }

  /** The event fields up to the first one whose value is followed by white space. */
  function Reached(fields: seq<Field>, keys: seq<string>): Found {
    if fields == [] then [] else
      var x := fields[0];
      if x.key !in keys || !x.value.Text? then Reached(fields[1..], keys)
      else [(x.key, x.value.s)] + (if x.after == "" then Reached(fields[1..], keys) else [])
  }

  /** The event fields after the first one whose value is followed by white space. */
  function Hidden(fields: seq<Field>, keys: seq<string>): Found {
    if fields == [] then []
    else if fields[0].key in keys && fields[0].value.Text? && fields[0].after != "" then Events(fields[1..], keys)
    else Hidden(fields[1..], keys)
  }

  lemma {:induction false} HiddenIsNone(fields: seq<Field>, keys: seq<string>)
    requires EventsAreTexts(fields, keys)
    ensures Hidden(fields, keys) == [] <==> NoneHidden(fields, keys)
  {
    if fields != [] {
      var rest := fields[1..];
      TextsTail(fields, fields[0], keys);
      HiddenTail(fields, keys);
      NoEvents(rest, keys);
      HiddenIsNone(rest, keys);
      hide NoneHidden, NoEventKey, EventsAreTexts, Events;
    }
  }

  lemma TextsTail(fields: seq<Field>, x: Field, keys: seq<string>)
    requires fields != [] && x == fields[0] && EventsAreTexts(fields, keys)
    ensures EventsAreTexts(fields[1..], keys) && (x.key in keys ==> x.value.Text?)
  {
  }

  lemma Joined<T>(a: seq<T>, b: seq<T>, c: seq<T>)
    ensures (a + b) + c == a + (b + c) && [] + c == c && a + [] == a
  {
  }

  /** What is reached and what white space hides are in order all the event fields. */
  lemma {:induction false} ReachedOrHidden(fields: seq<Field>, keys: seq<string>)
    ensures Events(fields, keys) == Reached(fields, keys) + Hidden(fields, keys)
  {
    if fields != [] {
      var x, rest := fields[0], fields[1..];
      ReachedOrHidden(rest, keys);
      Joined([], [], Events(rest, keys));
      if x.key in keys && x.value.Text? {
        var head := [(x.key, x.value.s)];
        Joined(head, Reached(rest, keys), Hidden(rest, keys));
        Joined(head, [], Events(rest, keys));
      }
    }
  }

  lemma SeenFirst(fields: seq<Field>, x: Field, start: nat, n: nat, keys: seq<string>)
    requires fields != [] && x == fields[0] && (x.key in keys ==> x.value.Text?)
    ensures var end := start + |FieldText(x)|;
      var more := Seen(fields[1..], end + |x.after| + 1, n, keys);
      Seen(fields, start, n, keys) ==
        if x.key !in keys then more
        else if end <= n then [(x.key, x.value.s)] + (if x.after == "" then more else [])
        else []
  {
    hide FieldText;
  }

  lemma ReachedFirst(fields: seq<Field>, c: nat, keys: seq<string>)
    requires c < |fields| && (fields[0].key in keys ==> fields[0].value.Text?)
    ensures var x := fields[0];
      var more := Reached(fields[1..][..c], keys);
      Reached(fields[..c + 1], keys) ==
        if x.key !in keys then more else [(x.key, x.value.s)] + (if x.after == "" then more else [])
  {
    assert fields[..c + 1][1..] == fields[1..][..c];
  }

  lemma WholeFirst(fields: seq<Field>, start: nat, n: nat)
    requires fields != []
    ensures var end := start + |FieldText(fields[0])|;
      CountWhole(fields, start, n) ==
        if end <= n then CountWhole(fields[1..], end + |fields[0].after| + 1, n) + 1 else 0
  {
    hide FieldText;
  }

  /** Of a payload cut anywhere just the complete fields matter to the scan. */
  lemma {:induction false} SeenIsReached(fields: seq<Field>, start: nat, n: nat, keys: seq<string>)
    requires EventsAreTexts(fields, keys)
    ensures Seen(fields, start, n, keys) == Reached(fields[..CountWhole(fields, start, n)], keys)
  {
    if fields == [] {
      assert fields[..0] == [];
    } else {
      var x := fields[0];
      var end := start + |FieldText(x)|;
      var next := end + |x.after| + 1;
      TextsTail(fields, x, keys);
      SeenFirst(fields, x, start, n, keys);
      WholeFirst(fields, start, n);
      if end <= n {
        ReachedFirst(fields, CountWhole(fields[1..], next, n), keys);
        hide *;
        SeenIsReached(fields[1..], next, n, keys);
      } else {
        NothingSeenPastCut(fields[1..], next, n, keys);
        assert fields[..0] == [];
      }
    }
  }

  lemma WholeAreTexts(lead: string, fields: seq<Field>, n: nat, keys: seq<string>)
    requires EventsAreTexts(fields, keys)
    ensures EventsAreTexts(Whole(lead, fields, n), keys)
  {
    hide FieldText;
  }

  // ---- what the scan collects

  /**
   Of a payload whose event keys hold strings, cut anywhere after its opening brace, the scan collects every event field that is complete
   if and only if none of them comes after one whose value is followed by white space.
   */
  lemma AllFoundExactly(lead: string, fields: seq<Field>, last: string, n: nat, keys: seq<string>)
    requires |lead| < n <= |Payload(lead, fields, last)| && GoodFields(fields) && Spaces(lead) && Spaces(last)
    requires EventsAreTexts(fields, keys)
    ensures var whole := Whole(lead, fields, n);
      Scan(Payload(lead, fields, last)[..n], |lead| + 1, keys, []) == Events(whole, keys) <==> NoneHidden(whole, keys)
  {
    hide *;
    ScanOfPayload(lead, fields, last, n, keys);
    SeenIsReached(fields, |lead| + 1, n, keys);
    WholeAreTexts(lead, fields, n, keys);
    WholeIs(lead, fields, n);
    var whole := Whole(lead, fields, n);
    ReachedOrHidden(whole, keys);
    HiddenIsNone(whole, keys);
    Longer(Reached(whole, keys), Hidden(whole, keys));
  }

  lemma WholeIs(lead: string, fields: seq<Field>, n: nat)
    ensures Whole(lead, fields, n) == fields[..CountWhole(fields, |lead| + 1, n)]
  {
  }

  lemma Longer<T>(a: seq<T>, b: seq<T>)
    ensures a == a + b <==> b == []
  {
    assert |a + b| == |a| + |b|;
    assert b == [] ==> a + b == a;
  }

  // ---- the event answered

  /** How far down the preferred keys the first one found stands; past them all when none is found. */
  function Place(keys: seq<string>, found: Found): nat {
    if keys == [] || FirstOf(found, keys[0]).Some? then 0 else 1 + Place(keys[1..], found)
  }

  lemma {:induction false} FirstOfBoth(a: Found, b: Found, k: string)
    ensures FirstOf(a + b, k) == if FirstOf(a, k).Some? then FirstOf(a, k) else FirstOf(b, k)
  {
    if a == [] {
      assert a + b == b;
    } else {
      assert (a + b)[1..] == a[1..] + b && (a + b)[0] == a[0];
      FirstOfBoth(a[1..], b, k);
    }
  }

  lemma {:induction false} BestOfBoth(keys: seq<string>, a: Found, b: Found)
    ensures Best(keys, a + b) == if Place(keys, a) <= Place(keys, b) then Best(keys, a) else Best(keys, b)
  {
    if keys != [] {
      FirstOfBoth(a, b, keys[0]);
      BestOfBoth(keys[1..], a, b);
    }
  }

  /** No field hidden by white space has a more preferred key than all those reached, unless it makes no difference to the text. */
  predicate NotOvertaken(fields: seq<Field>, keys: seq<string>) {
    var (reached, hidden) := (Reached(fields, keys), Hidden(fields, keys));
    Place(keys, reached) <= Place(keys, hidden) || Best(keys, reached) == Best(keys, hidden)
  }

  lemma EventIsReached(lead: string, fields: seq<Field>, last: string, n: nat, keys: seq<string>)
    requires n <= |Payload(lead, fields, last)| && GoodFields(fields) && Spaces(lead) && Spaces(last)
    requires EventsAreTexts(fields, keys)
    ensures EventOfPrefix(Payload(lead, fields, last)[..n], keys) == Best(keys, Reached(Whole(lead, fields, n), keys))
  {
    hide *;
    EventOfSpacedPayload(lead, fields, last, n, keys);
    SeenIsReached(fields, |lead| + 1, n, keys);
    WholeIs(lead, fields, n);
    if n <= |lead| {
      NothingSeenPastCut(fields, |lead| + 1, n, keys);
      BestOfNone(keys);
    }
  }

  lemma {:induction false} BestOfNone(keys: seq<string>)
    ensures Best(keys, []) == None
  {
    if keys != [] {
      BestOfNone(keys[1..]);
    }
  }

  /**
   For every payload with any white space whose event keys hold strings, and every cut: the event answered is the most preferred of the
   complete event fields if and only if none of them that white space hides is preferred to all those before.
   */
  lemma EventIsBestExactly(lead: string, fields: seq<Field>, last: string, n: nat, keys: seq<string>)
    requires n <= |Payload(lead, fields, last)| && GoodFields(fields) && Spaces(lead) && Spaces(last)
    requires EventsAreTexts(fields, keys)
    ensures var whole := Whole(lead, fields, n);
      EventOfPrefix(Payload(lead, fields, last)[..n], keys) == Best(keys, Events(whole, keys)) <==> NotOvertaken(whole, keys)
  {
    hide Payload, EventOfPrefix, Whole, GoodFields, EventsAreTexts, Place, Best, Reached, Hidden, Events;
    var whole := Whole(lead, fields, n);
    EventIsReached(lead, fields, last, n, keys);
    ReachedOrHidden(whole, keys);
    BestOfBoth(keys, Reached(whole, keys), Hidden(whole, keys));
  }

  // ---- against a parse

  /** The text that the parsed object holds for a name: a later field of a name replaces an earlier one. */
  function ParsedText(fields: seq<Field>, k: string): Option<string> {
    if fields == [] then None else
      var x := fields[|fields| - 1];
      if x.key == k then (if x.value.Text? then Some(x.value.s) else None) else ParsedText(fields[..|fields| - 1], k)
  }

  /** The event of the parsed object. */
  function ParsedEvent(fields: seq<Field>, keys: seq<string>): Option<string> {
    if keys == [] then None
    else match ParsedText(fields, keys[0])
      case Some(s) => Some(s)
      case None => ParsedEvent(fields, keys[1..])
  }

  lemma {:induction false} EventsSnoc(fields: seq<Field>, keys: seq<string>)
    requires fields != []
    ensures var n := |fields| - 1;
      Events(fields, keys) == Events(fields[..n], keys) + Events([fields[n]], keys)
  {
    var n := |fields| - 1;
    if n == 0 {
      assert fields == [fields[0]] && fields[..0] == [];
    } else {
      var rest := fields[1..];
      EventsSnoc(rest, keys);
      assert rest[..n - 1] == fields[..n][1..] && rest[n - 1] == fields[n];
      Joined(if fields[0].key in keys && fields[0].value.Text? then [(fields[0].key, fields[0].value.s)] else [],
             Events(rest[..n - 1], keys), Events([fields[n]], keys));
    }
  }

  lemma EventsOfOne(x: Field, keys: seq<string>)
    ensures Events([x], keys) == if x.key in keys && x.value.Text? then [(x.key, x.value.s)] else []
  {
    assert [x][1..] == [];
  }

  lemma FirstOfOne(q: string, s: string, k: string)
    ensures FirstOf([(q, s)], k) == if q == k then Some(s) else None
  {
    assert [(q, s)][1..] == [];
  }

  lemma {:induction false} ParsedIsThere(fields: seq<Field>, keys: seq<string>, k: string)
    requires EventsAreTexts(fields, keys) && k in keys
    ensures ParsedText(fields, k).Some? <==> FirstOf(Events(fields, keys), k).Some?
  {
    if fields != [] {
      var n := |fields| - 1;
      var x := fields[n];
      assert EventsAreTexts(fields[..n], keys);
      ParsedIsThere(fields[..n], keys, k);
      EventsSnoc(fields, keys);
      EventsOfOne(x, keys);
      FirstOfBoth(Events(fields[..n], keys), Events([x], keys), k);
      if x.key in keys {
        FirstOfOne(x.key, x.value.s, k);
      }
    }
  }

  lemma {:induction false} ParsedIsAtPlace(fields: seq<Field>, keys: seq<string>, wanted: seq<string>)
    requires EventsAreTexts(fields, keys) && forall k :: k in wanted ==> k in keys
    ensures var at := Place(wanted, Events(fields, keys));
      ParsedEvent(fields, wanted) == if at < |wanted| then ParsedText(fields, wanted[at]) else None
  {
    if wanted != [] {
      ParsedIsThere(fields, keys, wanted[0]);
      ParsedIsAtPlace(fields, keys, wanted[1..]);
    }
  }

  lemma {:induction false} BestIsAtPlace(keys: seq<string>, found: Found)
    ensures var at := Place(keys, found);
      && at <= |keys|
      && Best(keys, found) == (if at < |keys| then FirstOf(found, keys[at]) else None)
  {
    if keys != [] {
      BestIsAtPlace(keys[1..], found);
    }
  }

  /** The preferred key of the complete fields is read right: its first text, or the text answered in its stead, is its last one. */
  predicate ReadRight(fields: seq<Field>, keys: seq<string>) {
    var (reached, hidden) := (Reached(fields, keys), Hidden(fields, keys));
    var at := Place(keys, Events(fields, keys));
    at < |keys| ==>
      if Place(keys, reached) <= Place(keys, hidden) then FirstOf(reached, keys[at]) == ParsedText(fields, keys[at])
      else Best(keys, reached) == ParsedText(fields, keys[at])
  }

  lemma {:induction false} PlaceOfBoth(keys: seq<string>, a: Found, b: Found)
    ensures Place(keys, a + b) == Min(Place(keys, a), Place(keys, b))
  {
    if keys != [] {
      FirstOfBoth(a, b, keys[0]);
      PlaceOfBoth(keys[1..], a, b);
    }
  }

  /**
   And the event answered is the one a parse of the complete fields answers if and only if the most preferred key is not hidden and its
   first text is its last, or what is answered in its stead happens to be its last text.
   */
  lemma EventIsParsedExactly(lead: string, fields: seq<Field>, last: string, n: nat, keys: seq<string>)
    requires n <= |Payload(lead, fields, last)| && GoodFields(fields) && Spaces(lead) && Spaces(last)
    requires EventsAreTexts(fields, keys)
    ensures var whole := Whole(lead, fields, n);
      EventOfPrefix(Payload(lead, fields, last)[..n], keys) == ParsedEvent(whole, keys) <==> ReadRight(whole, keys)
  {
    hide Payload, EventOfPrefix, Whole, GoodFields, Place, Best, Reached, Hidden, Events, ParsedText, ParsedEvent;
    var whole := Whole(lead, fields, n);
    var reached, hidden := Reached(whole, keys), Hidden(whole, keys);
    EventIsReached(lead, fields, last, n, keys);
    WholeAreTexts(lead, fields, n, keys);
    hide EventsAreTexts;
    ReachedOrHidden(whole, keys);
    PlaceOfBoth(keys, reached, hidden);
    BestIsAtPlace(keys, reached);
    BestIsAtPlace(keys, hidden);
    ParsedIsAtPlace(whole, keys, keys);
  }

  // ---- a wrong event

  /** Two event fields, the less preferred first and a space before the comma. */
  function SpacedPair(p: string, q: string, s: string, t: string): seq<Field> {
    [Field("", q, "", "", Text(s), " "), Field("", p, "", "", Text(t), "")]
  }

  lemma SpacedPairIsWhole(p: string, q: string, s: string, t: string)
    ensures var fields := SpacedPair(p, q, s, t);
      Whole("", fields, |Payload("", fields, "")| - 1) == fields
  {
    var fields := SpacedPair(p, q, s, t);
    var a, b := |FieldText(fields[0])|, |FieldText(fields[1])|;
    var n := |Payload("", fields, "")| - 1;
    hide FieldText;
    assert fields[1..] == [fields[1]] && fields[1..][1..] == [];
    assert |Rest(fields[1..], "")| == b + 1;
    assert |Rest(fields, "")| == a + 1 + 1 + (b + 1);
    assert n == a + b + 3;
    assert CountWhole([], n + 1, n) == 0;
    assert CountWhole(fields[1..], 3 + a, n) == 1;
    assert CountWhole(fields, 1, n) == 2;
  }

  lemma SpacedPairReached(p: string, q: string, s: string, t: string)
    requires p != q
    ensures var fields := SpacedPair(p, q, s, t);
      && Reached(fields, [p, q]) == [(q, s)] && Hidden(fields, [p, q]) == [(p, t)] && Events(fields, [p, q]) == [(q, s), (p, t)]
      && ParsedText(fields, p) == Some(t)
  {
    var fields := SpacedPair(p, q, s, t);
    assert fields[1..] == [fields[1]];
    EventsOfOne(fields[1], [p, q]);
  }

  /** The text cut before its last brace: the scan answers the first field's text, where the preferred key holds another. */
  lemma SpaceHidesEvent(p: string, q: string, s: string, t: string)
    requires p != q && s != t
    ensures var fields := SpacedPair(p, q, s, t);
      var n := |Payload("", fields, "")| - 1;
      && EventOfPrefix(Payload("", fields, "")[..n], [p, q]) == Some(s)
      && Best([p, q], Events(Whole("", fields, n), [p, q])) == Some(t) == ParsedEvent(Whole("", fields, n), [p, q])
  {
    var fields := SpacedPair(p, q, s, t);
    var n := |Payload("", fields, "")| - 1;
    SpacedPairIsWhole(p, q, s, t);
    SpacedPairReached(p, q, s, t);
    assert GoodFields(fields) && EventsAreTexts(fields, [p, q]);
    EventIsReached("", fields, "", n, [p, q]);
    hide Payload, EventOfPrefix, Whole, GoodFields, Reached, Hidden, Events, ParsedText;
    FirstOfOne(q, s, p);
    FirstOfOne(q, s, q);
    assert [p, q][1..] == [q];
    assert [(q, s), (p, t)][1..] == [(p, t)];
    FirstOfOne(p, t, p);
  }
}
