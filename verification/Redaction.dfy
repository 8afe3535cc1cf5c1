/** agent_harness._redact and ledger._redact_detail: scrubbing credential-like substrings. */
module Redaction {
  const MARK := "[REDACTED]"

  const PATTERNS: seq<string> := ["sk-ant-", "sk-", "Bearer ", "ghp_", "dp.", "eyJ"]

  predicate Delimiter(c: char) { c in " \"'\n\r\t,}" }

  /** `p` starts at position `i` of `t`. */
  predicate At(t: string, p: string, i: int) { 0 <= i <= |t| - |p| && t[i..i + |p|] == p }

  lemma SliceOfSlice(t: string, lo: nat, hi: nat, i: nat, n: nat)
    requires lo <= hi <= |t| && i + n <= hi - lo
    ensures t[lo..hi][i..i + n] == t[lo + i..lo + i + n]
  {
    var a, b := t[lo..hi][i..i + n], t[lo + i..lo + i + n];
    assert forall k :: 0 <= k < n ==> a[k] == b[k];
  }

  lemma AtTail(t: string, p: string)
    requires t != ""
    ensures forall j :: 0 < j ==> (At(t, p, j) <==> At(t[1..], p, j - 1))
  {
    forall j | 0 < j <= |t| - |p| ensures At(t, p, j) <==> At(t[1..], p, j - 1) {
      SliceOfSlice(t, 1, |t|, j - 1, |p|);
      assert t[1..|t|] == t[1..];
    }
  }

  /** `t.find(p)`: the first position of `p`, or -1. */
  function Find(t: string, p: string): (i: int)
    ensures i == -1 || At(t, p, i)
    ensures forall j :: 0 <= j && (i == -1 || j < i) ==> !At(t, p, j)
  {
    if |t| < |p| then -1
    else if t[..|p|] == p then 0
    else if t == "" then -1
    else
      var i := Find(t[1..], p);
      AtTail(t, p);
      if i == -1 then -1 else i + 1
  }

  /** No occurrence of `p` anywhere in `t`. */
  ghost predicate Free(t: string, p: string) { forall i :: !At(t, p, i) }

  /** Where the redacted span that starts at `idx` stops: at a delimiter, the end, or 81 characters on. */
  function SpanEnd(t: string, idx: nat, end: nat): (e: nat)
    requires idx <= end <= |t|
    ensures end <= e <= |t|
    decreases |t| - end
  {
    if end < |t| && !Delimiter(t[end]) then
      if end + 1 - idx > 80 then end + 1 else SpanEnd(t, idx, end + 1)
    else end
  }

  /** The span holds no delimiter past the pattern, and stops only for a delimiter, for the end, or for its length. */
  lemma {:induction false} SpanStops(t: string, idx: nat, end: nat)
    requires idx <= end <= |t|
    ensures var e := SpanEnd(t, idx, end);
            && (forall k :: end <= k < e ==> !Delimiter(t[k]))
            && (e == |t| || Delimiter(t[e]) || e - idx > 80)
            && (e - idx <= 81 || e <= end + 1)
    decreases |t| - end
  {
    if end < |t| && !Delimiter(t[end]) && end + 1 - idx <= 80 { SpanStops(t, idx, end + 1); }
  }

  /** One pattern, scanned once from left to right: each span becomes the marker, the rest stays as it is. */
  function Scan(t: string, p: string): string
    requires Foreign(p)
    decreases |t|
  {
    var i := Find(t, p);
    if i == -1 then t else t[..i] + MARK + Scan(t[SpanEnd(t, i, i + |p|)..], p)
  }

  /** All patterns, one after the other. */
  function ScanAll(t: string, ps: seq<string>): string
    requires forall i :: 0 <= i < |ps| ==> Foreign(ps[i])
    decreases |ps|
  {
    if ps == [] then t else ScanAll(Scan(t, ps[0]), ps[1..])
  }

  /** No character of the pattern occurs in the marker. */
  predicate Foreign(p: string) { p != "" && forall i :: 0 <= i < |p| ==> p[i] !in MARK }

  lemma PatternsForeign()
    ensures forall i :: 0 <= i < |PATTERNS| ==> Foreign(PATTERNS[i])
  {
  }

  /** Putting a marker between two texts creates no occurrence of a foreign pattern: it can neither overlap the
      marker nor span it. */
  lemma MarkerSeparates(a: string, b: string, p: string, i: int)
    requires Foreign(p)
    ensures At(a + MARK + b, p, i) <==> At(a, p, i) || At(b, p, i - |a| - |MARK|)
  {
    var t := a + MARK + b;
    if 0 <= i <= |t| - |p| {
      if i + |p| <= |a| {
        assert t[i..i + |p|] == a[i..i + |p|];
      } else if i >= |a| + |MARK| {
        var k := i - |a| - |MARK|;
        assert t[i..i + |p|] == b[k..k + |p|];
      } else {
        var m := if i < |a| then |a| else i;
        assert t[m] == MARK[m - |a|] && t[i..i + |p|][m - i] == t[m];
      }
    }
  }

  lemma FreeParts(a: string, b: string, p: string)
    requires Foreign(p)
    ensures Free(a + MARK + b, p) <==> Free(a, p) && Free(b, p)
  {
    forall i { MarkerSeparates(a, b, p, i); }
    if Free(a + MARK + b, p) {
      forall i ensures !At(b, p, i) { MarkerSeparates(a, b, p, i + |a| + |MARK|); }
    }
  }

  lemma FreeSlice(t: string, p: string, lo: nat, hi: nat)
    requires Free(t, p) && lo <= hi <= |t|
    ensures Free(t[lo..hi], p)
  {
    forall i ensures !At(t[lo..hi], p, i) {
      if 0 <= i <= hi - lo - |p| {
        SliceOfSlice(t, lo, hi, i, |p|);
        assert !At(t, p, lo + i);
      }
    }
  }

  /** Before its first occurrence a text is free of the pattern. */
  lemma PrefixFree(t: string, p: string)
    requires p != "" && Find(t, p) != -1
    ensures Free(t[..Find(t, p)], p)
  {
    var i := Find(t, p);
    forall j ensures !At(t[..i], p, j) {
      if 0 <= j <= i - |p| {
        assert t[..i][j..j + |p|] == t[j..j + |p|];
        assert !At(t, p, j);
      }
    }
  }

  lemma FindFree(t: string, p: string)
    ensures Find(t, p) == -1 <==> Free(t, p)
  {
  }

  /** A scan removes its pattern, and brings back no other foreign pattern that was gone. */
  lemma {:induction false} ScanCleans(t: string, p: string, q: string)
    requires Foreign(p) && Foreign(q) && (q == p || Free(t, q))
    ensures Free(Scan(t, p), q)
    decreases |t|
  {
    hide Free, Find, SpanEnd;
    var i := Find(t, p);
    FindFree(t, p);
    if i != -1 {
      var e := SpanEnd(t, i, i + |p|);
      PrefixFree(t, p);
      if Free(t, q) { FreeSlice(t, q, 0, i); FreeSlice(t, q, e, |t|); }
      assert t[0..i] == t[..i] && t[e..|t|] == t[e..];
      ScanCleans(t[e..], p, q);
      FreeParts(t[..i], Scan(t[e..], p), q);
      assert t[..i] + MARK + Scan(t[e..], p) == Scan(t, p);
    }
  }

  lemma {:induction false} ScanAllKeepsFree(t: string, ps: seq<string>, q: string)
    requires (forall i :: 0 <= i < |ps| ==> Foreign(ps[i])) && Foreign(q) && Free(t, q)
    ensures Free(ScanAll(t, ps), q)
    decreases |ps|
  {
    if ps != [] {
      ScanCleans(t, ps[0], q);
      ScanAllKeepsFree(Scan(t, ps[0]), ps[1..], q);
    }
  }

  lemma {:induction false} ScanAllCleans(t: string, ps: seq<string>)
    requires forall i :: 0 <= i < |ps| ==> Foreign(ps[i])
    ensures forall i :: 0 <= i < |ps| ==> Free(ScanAll(t, ps), ps[i])
    decreases |ps|
  {
    if ps != [] {
      ScanCleans(t, ps[0], ps[0]);
      ScanAllKeepsFree(Scan(t, ps[0]), ps[1..], ps[0]);
      ScanAllCleans(Scan(t, ps[0]), ps[1..]);
    }
  }

  lemma {:induction false} ScanAllIdle(t: string, ps: seq<string>)
    requires forall i :: 0 <= i < |ps| ==> Foreign(ps[i]) && Free(t, ps[i])
    ensures ScanAll(t, ps) == t
  {
    if ps != [] {
      FindFree(t, ps[0]);
      ScanAllIdle(t, ps[1..]);
    }
  }

  // ------------------------------------------------------------------ the redactor

  function Redacted(t: string): string {
    PatternsForeign();
    ScanAll(t, PATTERNS)
  }

  /** No pattern occurs in the text. */
  ghost predicate Clean(t: string) { forall p :: p in PATTERNS ==> Free(t, p) }

  /** Nothing credential-like is left, a clean text is untouched, and redacting twice is redacting once. */
  lemma RedactedIsClean(t: string)
    ensures forall p :: p in PATTERNS ==> Free(Redacted(t), p)
    ensures forall p :: p in {"sk-ant-", "sk-", "Bearer ", "ghp_", "dp.", "eyJ"} ==> Free(Redacted(t), p)
    ensures (forall p :: p in PATTERNS ==> Free(t, p)) ==> Redacted(t) == t
    ensures Redacted(Redacted(t)) == Redacted(t)
  {
    PatternsForeign();
    ScanAllCleans(t, PATTERNS);
    ScanAllIdle(Redacted(t), PATTERNS);
    if forall p :: p in PATTERNS ==> Free(t, p) { ScanAllIdle(t, PATTERNS); }
  }

  /** A text with one credential: from its prefix to the next delimiter it becomes the marker, and all else stays. */
  lemma {:induction false} OneSecret(before: string, n: nat, secret: string, after: string)
    requires n < |PATTERNS| && PATTERNS[n] <= secret && |secret| <= 81
    requires forall i :: |PATTERNS[n]| <= i < |secret| ==> secret[i] !in " \"'\n\r\t,}"
    requires after == "" || after[0] in " \"'\n\r\t,}"
    requires Clean(before) && Clean(after)
    requires forall i :: 0 <= i < |before| ==> !At(before + (secret + after), PATTERNS[n], i)
    requires forall m :: 0 <= m < n ==> Free(before + (secret + after), PATTERNS[m])
    ensures Redacted(before + (secret + after)) == before + "[REDACTED]" + after
  {
    PatternsForeign();
    var p, t, clean := PATTERNS[n], before + (secret + after), before + MARK + after;
    ScanSecret(before, p, secret, after);
    forall m | 0 <= m < |PATTERNS| ensures Free(clean, PATTERNS[m]) { FreeParts(before, after, PATTERNS[m]); }
    hide Free, Scan, At, Foreign;
    ScanNth(t, PATTERNS, n, clean);
  }

  lemma SecretSpan(t: string, idx: nat, len: nat, m: nat)
    requires idx + len <= |t| && m <= len <= 81
    requires forall i :: idx + m <= i < idx + len ==> !Delimiter(t[i])
    requires idx + len == |t| || Delimiter(t[idx + len])
    ensures SpanEnd(t, idx, idx + m) == idx + len
  {
    hide Delimiter, SpanEnd;
    SpanStops(t, idx, idx + m);
  }

  lemma ScanIdle(t: string, p: string)
    requires Foreign(p) && Free(t, p)
    ensures Scan(t, p) == t
  {
    FindFree(t, p);
    ScanFree(t, p);
  }

  lemma {:induction false} ScanFrom(t: string, p: string, idx: nat)
    requires Foreign(p) && At(t, p, idx) && forall i :: 0 <= i < idx ==> !At(t, p, i)
    ensures Scan(t, p) == t[..idx] + MARK + Scan(t[SpanEnd(t, idx, idx + |p|)..], p)
  {
    hide Foreign, SpanEnd;
    assert Find(t, p) == idx;
  }

  lemma {:induction false} ScanHit(t: string, p: string, idx: nat, e: nat)
    requires Foreign(p) && At(t, p, idx) && forall i :: 0 <= i < idx ==> !At(t, p, i)
    requires SpanEnd(t, idx, idx + |p|) == e && Free(t[e..], p)
    ensures Scan(t, p) == t[..idx] + MARK + t[e..]
  {
    hide Foreign, SpanEnd, Free, Find, At, Scan;
    ScanFrom(t, p, idx);
    ScanIdle(t[e..], p);
  }

  lemma SecretEnds(before: string, secret: string, after: string, m: nat)
    requires m <= |secret| <= 81 && forall i :: m <= i < |secret| ==> !Delimiter(secret[i])
    requires after == "" || Delimiter(after[0])
    ensures SpanEnd(before + (secret + after), |before|, |before| + m) == |before| + |secret|
  {
    hide Delimiter;
    SpanEndShift(before, secret + after, 0, m);
    SecretSpan(secret + after, 0, |secret|, m);
  }

  lemma SecretStarts(before: string, p: string, secret: string, after: string)
    requires p <= secret
    ensures var (t, idx) := (before + (secret + after), |before|);
            t[..idx] == before && t[idx + |secret|..] == after && At(t, p, idx)
  {
    assert (before + (secret + after))[|before|..|before| + |p|] == secret[..|p|];
  }

  lemma {:induction false} ScanSecret(before: string, p: string, secret: string, after: string)
    requires Foreign(p) && p <= secret && |secret| <= 81
    requires forall i :: |p| <= i < |secret| ==> !Delimiter(secret[i])
    requires after == "" || Delimiter(after[0])
    requires Free(after, p) && forall i :: 0 <= i < |before| ==> !At(before + (secret + after), p, i)
    ensures Scan(before + (secret + after), p) == before + MARK + after
  {
    hide Foreign, Free, Delimiter, Scan, At, SpanEnd;
    SecretStarts(before, p, secret, after);
    SecretEnds(before, secret, after, |p|);
    ScanHit(before + (secret + after), p, |before|, |before| + |secret|);
  }

  lemma {:induction false} ScanNth(t: string, ps: seq<string>, n: nat, clean: string)
    requires (forall m :: 0 <= m < |ps| ==> Foreign(ps[m])) && n < |ps|
    requires (forall m :: 0 <= m < n ==> Free(t, ps[m])) && Scan(t, ps[n]) == clean
    requires forall m :: 0 <= m < |ps| ==> Free(clean, ps[m])
    ensures ScanAll(t, ps) == clean
  {
    if n == 0 {
      ScanAllIdle(clean, ps[1..]);
    } else {
      FindFree(t, ps[0]);
      ScanFree(t, ps[0]);
      ScanNth(t, ps[1..], n - 1, clean);
    }
  }

  /** Searching from the very beginning again after a redaction finds what the left-to-right scan finds next. */
  lemma FindPastMarker(pre: string, tail: string, p: string)
    requires Foreign(p) && Free(pre, p)
    ensures Find(pre + MARK + tail, p) == if Find(tail, p) == -1 then -1 else |pre| + |MARK| + Find(tail, p)
  {
    var t := pre + MARK + tail;
    forall i { MarkerSeparates(pre, tail, p, i); }
    var i, k := Find(t, p), Find(tail, p);
    if k != -1 {
      MarkerSeparates(pre, tail, p, k + |pre| + |MARK|);
    }
  }

  /** Where the span stops depends only on what follows its start. */
  lemma {:induction false} SpanEndShift(pre: string, tail: string, idx: nat, end: nat)
    requires idx <= end <= |tail|
    ensures SpanEnd(pre + tail, |pre| + idx, |pre| + end) == |pre| + SpanEnd(tail, idx, end)
    decreases |tail| - end
  {
    if end < |tail| && !Delimiter(tail[end]) && end + 1 - idx <= 80 {
      SpanEndShift(pre, tail, idx, end + 1);
    }
  }

  /** `_redact`: for each pattern, find from the start, blank the span, and search again until none is left. */
  method Redact(text: string) returns (r: string)
    ensures r == Redacted(text)
  {
    PatternsForeign();
    r := text;
    for n := 0 to |PATTERNS|
      invariant ScanAll(r, PATTERNS[n..]) == Redacted(text)
    {
      var p := PATTERNS[n];
      assert PATTERNS[n..][0] == p && PATTERNS[n..][1..] == PATTERNS[n + 1..];
      r := RedactPattern(r, p);
    }
  }

  /** Everything before the current tail is done: it is empty or ends with a marker after a pattern-free text. */
  ghost predicate DoneBefore(pre: string, p: string) {
    pre == "" || exists a :: Free(a, p) && pre == a + MARK
  }

  method RedactPattern(text: string, p: string) returns (r: string)
    requires Foreign(p)
    ensures r == Scan(text, p)
  {
    hide Scan, SpanEnd, Find, DoneBefore;
    r := text;
    var idx := Find(r, p);
    ghost var pre, tail := "", text;
    StartScan(text, p);
    while idx != -1
      invariant r == pre + tail && pre + Scan(tail, p) == Scan(text, p)
      invariant idx == if Find(tail, p) == -1 then -1 else |pre| + Find(tail, p)
      invariant DoneBefore(pre, p)
      decreases |tail|
    {
      ghost var k := Find(tail, p);
      RedactStep(pre, tail, p);
      var end := EndOfSpan(r, idx, |p|);
      r := r[..idx] + MARK + r[end..];
      idx := Find(r, p);
      pre, tail := pre + tail[..k] + MARK, tail[SpanEnd(tail, k, k + |p|)..];
    }
    ScanFree(tail, p);
  }

  /** The inner loop: walk to the end of the span. */
  method EndOfSpan(t: string, idx: nat, len: nat) returns (end: nat)
    requires idx + len <= |t|
    ensures end == SpanEnd(t, idx, idx + len)
  {
    end := idx + len;
    while end < |t| && !Delimiter(t[end])
      invariant idx + len <= end <= |t|
      invariant SpanEnd(t, idx, idx + len) == SpanEnd(t, idx, end)
    {
      if end + 1 - idx > 80 { return end + 1; }
      end := end + 1;
    }
  }

  lemma ScanFree(t: string, p: string)
    requires Foreign(p) && Find(t, p) == -1
    ensures Scan(t, p) == t
  {
  }

  lemma StartScan(t: string, p: string)
    requires Foreign(p)
    ensures DoneBefore("", p) && "" + t == t && "" + Scan(t, p) == Scan(t, p)
  {
  }

  lemma DoneMore(pre: string, next: string, p: string)
    requires Foreign(p) && DoneBefore(pre, p) && Free(next, p)
    ensures Free(pre + next, p) && DoneBefore(pre + next + MARK, p)
  {
    if pre != "" {
      var a :| Free(a, p) && pre == a + MARK;
      FreeParts(a, next, p);
    } else {
      assert pre + next == next;
    }
  }

  /** One round of the loop, seen on the part already done and the tail still to do. */
  lemma {:induction false} RedactStep(pre: string, tail: string, p: string)
    requires Foreign(p) && DoneBefore(pre, p) && Find(tail, p) != -1
    ensures var k := Find(tail, p);
            var e := SpanEnd(tail, k, k + |p|);
            var r := pre + tail;
            && |pre| + k + |p| <= |r| && SpanEnd(r, |pre| + k, |pre| + k + |p|) == |pre| + e
            && r[..|pre| + k] + MARK + r[|pre| + e..] == (pre + tail[..k] + MARK) + tail[e..]
            && |tail[e..]| < |tail|
            && DoneBefore(pre + tail[..k] + MARK, p)
            && Find((pre + tail[..k] + MARK) + tail[e..], p)
               == (if Find(tail[e..], p) == -1 then -1 else |pre + tail[..k] + MARK| + Find(tail[e..], p))
            && (pre + tail[..k] + MARK) + Scan(tail[e..], p) == pre + Scan(tail, p)
  {
    hide Free, Find, SpanEnd, DoneBefore, Scan, Foreign, At;
    FindNext(pre, tail, p);
    ScanNext(pre, tail, p);
    var k := Find(tail, p);
    assert k + |p| <= |tail| && |p| > 0;
    SpanEndShift(pre, tail, k, k + |p|);
    Splice(pre, tail, k, SpanEnd(tail, k, k + |p|), MARK);
  }

  lemma {:induction false} ScanNext(pre: string, t: string, p: string)
    requires Foreign(p) && Find(t, p) != -1
    ensures var k := Find(t, p);
            && 0 <= k && k + |p| <= |t| && |p| > 0
            && (pre + t[..k] + MARK) + Scan(t[SpanEnd(t, k, k + |p|)..], p) == pre + Scan(t, p)
  {
    hide Find, SpanEnd;
    var k := Find(t, p);
    var rest := Scan(t[SpanEnd(t, k, k + |p|)..], p);
    assert Scan(t, p) == t[..k] + MARK + rest;
    hide Scan;
    assert (pre + t[..k] + MARK) + rest == pre + (t[..k] + MARK + rest);
  }

  /** After a redaction the search finds what it finds in the tail that is left. */
  lemma {:induction false} FindNext(pre: string, tail: string, p: string)
    requires Foreign(p) && DoneBefore(pre, p) && Find(tail, p) != -1
    ensures var k := Find(tail, p);
            var (done, rest) := (pre + tail[..k] + MARK, tail[SpanEnd(tail, k, k + |p|)..]);
            && DoneBefore(done, p)
            && Find(done + rest, p) == if Find(rest, p) == -1 then -1 else |done| + Find(rest, p)
  {
    hide Free, Find, SpanEnd, DoneBefore, Scan;
    var k := Find(tail, p);
    PrefixFree(tail, p);
    DoneMore(pre, tail[..k], p);
    FindPastMarker(pre + tail[..k], tail[SpanEnd(tail, k, k + |p|)..], p);
  }

  lemma Splice(pre: string, tail: string, k: nat, e: nat, mark: string)
    requires k <= e <= |tail|
    ensures (pre + tail)[..|pre| + k] + mark + (pre + tail)[|pre| + e..] == (pre + tail[..k] + mark) + tail[e..]
  {
    assert (pre + tail)[..|pre| + k] == pre + tail[..k];
    assert (pre + tail)[|pre| + e..] == tail[e..];
  }

  // ------------------------------------------------------------------ event details

  /** A JSON-like detail value; a dictionary is the list of its entries. */
  datatype Detail = Str(text: string) | Dict(entries: seq<Entry>) | Items(items: seq<Detail>) | Other(id: nat)

  datatype Entry = Entry(key: string, value: Detail)

  /** Texts, dictionaries at any depth, and the texts directly inside lists are redacted. */
  function RedactEntries(es: seq<Entry>): seq<Entry>
    decreases es
  {
    if es == [] then [] else [Entry(es[0].key, RedactValue(es[0].value))] + RedactEntries(es[1..])
  }

  function RedactValue(v: Detail): Detail
    decreases v
  {
    match v
    case Str(t) => Str(Redacted(t))
    case Dict(inner) => Dict(RedactEntries(inner))
    case Items(xs) => Items(RedactItems(xs))
    case Other(id) => Other(id)
  }

  function RedactItems(xs: seq<Detail>): (r: seq<Detail>)
  {
    if xs == [] then []
    else [if xs[0].Str? then Str(Redacted(xs[0].text)) else xs[0]] + RedactItems(xs[1..])
  }

  lemma {:induction false} RedactItemsIdempotent(xs: seq<Detail>)
    ensures RedactItems(RedactItems(xs)) == RedactItems(xs)
  {
    if xs != [] {
      RedactItemsIdempotent(xs[1..]);
      if xs[0].Str? { RedactedIsClean(xs[0].text); }
      assert RedactItems(xs)[1..] == RedactItems(xs[1..]);
    }
  }

  // What redaction makes of a detail: keys, order, lengths and what is no text stay; texts that are values, at any
  // depth of dictionaries, or that stand directly in a list are redacted; other list items stay as they are.

  ghost predicate Scrubbed(es: seq<Entry>, r: seq<Entry>)
    decreases es
  {
    |r| == |es| && forall i :: 0 <= i < |es| ==> r[i].key == es[i].key && ScrubbedValue(es[i].value, r[i].value)
  }

  ghost predicate ScrubbedValue(v: Detail, w: Detail)
    decreases v
  {
    match v
    case Str(t) => w == Str(Redacted(t)) && Clean(w.text)
    case Dict(inner) => w.Dict? && Scrubbed(inner, w.entries)
    case Items(xs) => w.Items? && ScrubbedItems(xs, w.items)
    case Other(_) => w == v
  }

  ghost predicate ScrubbedItems(xs: seq<Detail>, ws: seq<Detail>) {
    |ws| == |xs| && forall j :: 0 <= j < |xs| ==>
      if xs[j].Str? then ws[j] == Str(Redacted(xs[j].text)) && Clean(ws[j].text) else ws[j] == xs[j]
  }

  lemma {:induction false} EntriesScrubbed(es: seq<Entry>)
    ensures Scrubbed(es, RedactEntries(es))
    decreases es
  {
    hide Redacted, Clean, ScrubbedValue;
    if es != [] {
      ValueScrubbed(es[0].value);
      EntriesScrubbed(es[1..]);
      assert forall i :: 0 < i < |es| ==> es[i] == es[1..][i - 1];
    }
  }

  lemma {:induction false} ValueScrubbed(v: Detail)
    ensures ScrubbedValue(v, RedactValue(v))
    decreases v
  {
    hide Redacted, Clean;
    match v
    case Str(t) => TextIsClean(t);
    case Dict(inner) => EntriesScrubbed(inner);
    case Items(xs) => ItemsScrubbed(xs);
    case Other(_) =>
  }

  lemma {:induction false} ItemsScrubbed(xs: seq<Detail>)
    ensures ScrubbedItems(xs, RedactItems(xs))
  {
    hide Redacted, Clean;
    if xs != [] {
      if xs[0].Str? { TextIsClean(xs[0].text); }
      ItemsScrubbed(xs[1..]);
      assert forall j :: 0 < j < |xs| ==> xs[j] == xs[1..][j - 1];
    }
  }

  /** `_redact_detail`. */
  method RedactDetail(es: seq<Entry>) returns (r: seq<Entry>)
    ensures r == RedactEntries(es) && Scrubbed(es, r)
    decreases es
  {
    hide Redacted, Scrubbed, RedactValue;
    r := [];
    for n := 0 to |es|
      invariant r + RedactEntries(es[n..]) == RedactEntries(es)
    {
      assert es[n..][1..] == es[n + 1..];
      var w := RedactOne(es[n].value);
      r := r + [Entry(es[n].key, w)];
    }
    assert es[|es|..] == [] && r + [] == r;
    EntriesScrubbed(es);
  }

  method RedactOne(v: Detail) returns (w: Detail)
    ensures w == RedactValue(v)
    decreases v
  {
    hide Redacted, Scrubbed;
    match v
    case Str(t) =>
      var text := Redact(t);
      w := Str(text);
    case Dict(inner) =>
      var entries := RedactDetail(inner);
      w := Dict(entries);
    case Items(xs) =>
      var items := RedactList(xs);
      w := Items(items);
    case Other(_) => w := v;
  }

  lemma {:induction false} ItemsNext(ws: seq<Detail>, xs: seq<Detail>, n: nat)
    requires n < |xs|
    ensures ws + RedactItems(xs[n..])
            == (ws + [if xs[n].Str? then Str(Redacted(xs[n].text)) else xs[n]]) + RedactItems(xs[n + 1..])
  {
    hide Redacted;
    assert xs[n..][1..] == xs[n + 1..];
  }

  lemma {:induction false} ItemsEnds(ws: seq<Detail>, xs: seq<Detail>)
    ensures xs[0..] == xs && [] + RedactItems(xs) == RedactItems(xs) && ws + RedactItems(xs[|xs|..]) == ws
  {
  }

  method RedactList(xs: seq<Detail>) returns (ws: seq<Detail>)
    ensures ws == RedactItems(xs)
  {
    hide Redacted, RedactItems;
    ws := [];
    ItemsEnds(ws, xs);
    for n := 0 to |xs|
      invariant ws + RedactItems(xs[n..]) == RedactItems(xs)
    {
      ItemsNext(ws, xs, n);
      if xs[n].Str? {
        var text := Redact(xs[n].text);
        ws := ws + [Str(text)];
      } else {
        ws := ws + [xs[n]];
      }
    }
    ItemsEnds(ws, xs);
  }

  // ------------------------------------------------------------------ which texts are reached

  /** Every text that is a value at some depth of dictionaries, or stands directly in a list there, satisfies it. */
  ghost predicate Surface(es: seq<Entry>)
    decreases es
  {
    forall i :: 0 <= i < |es| ==> SurfaceValue(es[i].value)
  }

  ghost predicate SurfaceValue(v: Detail)
    decreases v
  {
    match v
    case Str(t) => Clean(t)
    case Dict(inner) => Surface(inner)
    case Items(xs) => forall j :: 0 <= j < |xs| && xs[j].Str? ==> Clean(xs[j].text)
    case Other(_) => true
  }

  /** No text anywhere in the value, lists within lists and dictionaries within lists included, holds a pattern. */
  ghost predicate Spotless(v: Detail)
    decreases v
  {
    match v
    case Str(t) => Clean(t)
    case Dict(inner) => forall i :: 0 <= i < |inner| ==> Spotless(inner[i].value)
    case Items(xs) => forall j :: 0 <= j < |xs| ==> Spotless(xs[j])
    case Other(_) => true
  }

  /** The dictionaries and lists that are items of a list hold no pattern. */
  ghost predicate NestedSpotless(v: Detail)
    decreases v
  {
    match v
    case Dict(inner) => forall i :: 0 <= i < |inner| ==> NestedSpotless(inner[i].value)
    case Items(xs) => forall j :: 0 <= j < |xs| && !xs[j].Str? ==> Spotless(xs[j])
    case _ => true
  }

  /** After redaction no reached text holds a pattern, and where none did nothing has changed. */
  lemma {:induction false} ScrubbedSurface(es: seq<Entry>, r: seq<Entry>)
    requires Scrubbed(es, r)
    ensures Surface(r) && (Surface(es) ==> r == es)
    decreases es
  {
    hide Redacted, Clean, ScrubbedValue, SurfaceValue;
    forall i | 0 <= i < |es| ensures SurfaceValue(r[i].value) && (SurfaceValue(es[i].value) ==> r[i] == es[i]) {
      ScrubbedSurfaceValue(es[i].value, r[i].value);
    }
  }

  lemma {:induction false} ScrubbedSurfaceValue(v: Detail, w: Detail)
    requires ScrubbedValue(v, w)
    ensures SurfaceValue(w) && (SurfaceValue(v) ==> w == v)
    decreases v
  {
    hide Redacted, Clean;
    match v
    case Str(t) => TextIsClean(t);
    case Dict(inner) => ScrubbedSurface(inner, w.entries);
    case Items(xs) => forall j | 0 <= j < |xs| && xs[j].Str? { TextIsClean(xs[j].text); }
    case Other(_) =>
  }

  /** The docstring promises all string values. What is left out is what lies deeper inside a list: a redacted value
      is free of patterns everywhere exactly if the dictionaries and lists within its lists were. */
  lemma {:induction false} SpotlessExactly(v: Detail, w: Detail)
    requires ScrubbedValue(v, w)
    ensures Spotless(w) <==> NestedSpotless(v)
    decreases v
  {
    hide Redacted, Clean;
    match v
    case Str(t) => TextIsClean(t);
    case Dict(inner) =>
      forall i | 0 <= i < |inner| ensures Spotless(w.entries[i].value) <==> NestedSpotless(inner[i].value) {
        SpotlessExactly(inner[i].value, w.entries[i].value);
      }
    case Items(xs) => forall j | 0 <= j < |xs| && xs[j].Str? { TextIsClean(xs[j].text); }
    case Other(_) =>
  }

  /** The input: a list that holds a dictionary with a key in it is recorded as it is. */
  lemma NestedKeyStays(text: string)
    requires !Clean(text)
    ensures var v := Items([Dict([Entry("error", Str(text))])]);
            RedactValue(v) == v && !Spotless(v)
  {
    hide Redacted, Clean;
    var d := Dict([Entry("error", Str(text))]);
    assert !Spotless(d.entries[0].value);
    assert RedactItems([d]) == [d] + RedactItems([]);
  }

  lemma TextIsClean(t: string)
    ensures Clean(Redacted(t)) && (Clean(t) ==> Redacted(t) == t)
  {
    hide Redacted, Free;
    RedactedIsClean(t);
  }

  /** The redaction in the runner followed by the one in the ledger records the same as a single one. */
  lemma {:induction false} RedactDetailIdempotent(es: seq<Entry>)
    ensures RedactEntries(RedactEntries(es)) == RedactEntries(es)
    decreases es
  {
    if es != [] {
      RedactDetailIdempotent(es[1..]);
      var first := RedactEntries(es)[0];
      assert RedactEntries(es)[1..] == RedactEntries(es[1..]);
      match es[0].value
      case Str(t) => RedactedIsClean(t);
      case Dict(inner) => RedactDetailIdempotent(inner);
      case Items(xs) => RedactItemsIdempotent(xs);
      case Other(_) =>
    }
  }
}
