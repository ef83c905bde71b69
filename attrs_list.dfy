/**
 * The attributes list of a line: default attributes plus byte-range overrides.
 *
 * The list's range map is canonical (sorted, disjoint, and adjacent ranges
 * with equal attributes merged), so it is fixed by the attributes it gives
 * each byte. The model therefore keeps the overrides as a map from byte
 * offset to attributes; two lists are equal exactly when their range maps
 * are, and `SpansIter` recovers the maximal ranges.
 */
module AttrsSpans {

  /** A set of text attributes (family, colour, weight, ...), seen only through its identity. */
  datatype Attrs = Attrs(id: nat)

  /** `Attrs::new()`. */
  const NewAttrs: Attrs := Attrs(0)

  /** A byte range [start, end) carrying one set of attributes. */
  datatype Span = Span(start: nat, end: nat, attrs: Attrs)

  datatype AttrsList = AttrsList(defaults: Attrs, overrides: map<nat, Attrs>)

  /** The attributes that apply to byte `p`. */
  function AttrsAt(list: AttrsList, p: nat): Attrs {
    if p in list.overrides then list.overrides[p] else list.defaults
  }

  /** The offsets in [start, end). */
  function Range(start: nat, end: nat): (r: set<nat>)
    ensures forall p: nat :: p in r <==> start <= p < end
    decreases end
  {
    if end <= start then {} else Range(start, end - 1) + {end - 1}
  }

  /** The offsets `ks` moved up by `offset`. */
  function Shifted(ks: set<nat>, offset: nat): (r: set<nat>)
    ensures forall p: nat :: p in r <==> p >= offset && p - offset in ks
  {
    var r := set q | q in ks :: q + offset;
    assert forall p: nat | p >= offset && p - offset in ks :: p in r by {
      forall p: nat | p >= offset && p - offset in ks ensures p in r {
        var q: nat := p - offset;
        assert q in ks && q + offset == p;
      }
    }
    r
  }

  /** The offsets of `ks` at or past `offset`, moved down by `offset`. */
  function Unshifted(ks: set<nat>, offset: nat): (r: set<nat>)
    ensures forall p: nat :: p in r <==> p + offset in ks
  {
    var r := set q | q in ks && q >= offset :: (q - offset) as nat;
    assert forall p: nat | p + offset in ks :: p in r by {
      forall p: nat | p + offset in ks ensures p in r {
        var q: nat := p + offset;
        assert q in ks && q >= offset && (q - offset) as nat == p;
      }
    }
    r
  }

  /** `AttrsList::new`: a list with no spans. */
  function New(defaults: Attrs): (r: AttrsList)
    ensures r.defaults == defaults
    ensures forall p: nat :: AttrsAt(r, p) == defaults
    ensures SpansIter(r) == []
  {
    AttrsList(defaults, map[])
  }

  /**
   * `add_span`: the range [start, end) takes `attrs`, over whatever covered
   * it before; an empty range changes nothing.
   */
  function AddSpan(list: AttrsList, start: nat, end: nat, attrs: Attrs): (r: AttrsList)
    ensures r.defaults == list.defaults
    ensures r.overrides.Keys == list.overrides.Keys + Range(start, end)
    ensures forall p: nat :: AttrsAt(r, p) == if start <= p < end then attrs else AttrsAt(list, p)
  {
    if end <= start then list
    else
      AttrsList(list.defaults,
        map p | p in list.overrides.Keys + Range(start, end) ::
          if start <= p < end then attrs else list.overrides[p])
  }

  /**
   * `split_off(index)`: the first list keeps the spans before `index` (a span
   * crossing it is cut there); the second has the same defaults and the
   * spans from `index` on, rebased to start at 0.
   */
  function SplitOff(list: AttrsList, index: nat): (r: (AttrsList, AttrsList))
    ensures r.0.defaults == list.defaults && r.1.defaults == list.defaults
    ensures forall p: nat :: p in r.0.overrides <==> p in list.overrides && p < index
    ensures forall p: nat :: p < index ==> AttrsAt(r.0, p) == AttrsAt(list, p)
    ensures forall p: nat :: p in r.1.overrides <==> p + index in list.overrides
    ensures forall p: nat :: AttrsAt(r.1, p) == AttrsAt(list, p + index)
  {
    var m := list.overrides;
    (AttrsList(list.defaults, map p | p in m && p < index :: m[p]),
     AttrsList(list.defaults, map p | p in Unshifted(m.Keys, index) :: m[p + index]))
  }

  /** Every byte of `s` is overridden in `m` with the span's attributes. */
  predicate SpanAgrees(s: Span, m: map<nat, Attrs>) {
    forall p: nat :: s.start <= p < s.end ==> p in m && m[p] == s.attrs
  }

  /** The bytes the spans cover. */
  function Covered(spans: seq<Span>): set<nat> {
    if spans == [] then {} else Range(spans[0].start, spans[0].end) + Covered(spans[1..])
  }

  lemma {:induction false} CoveredConcat(a: seq<Span>, b: seq<Span>)
    ensures Covered(a + b) == Covered(a) + Covered(b)
  {
    if a != [] {
      assert (a + b)[1..] == a[1..] + b;
      CoveredConcat(a[1..], b);
    } else {
      assert a + b == b;
    }
  }

  /** `p` is the least element of `ks`. */
  predicate IsLeast(p: nat, ks: set<nat>) {
    p in ks && forall q :: q in ks ==> p <= q
  }

  lemma {:induction false} HasLeast(ks: set<nat>)
    requires ks != {}
    ensures exists p :: IsLeast(p, ks)
  {
    var x :| x in ks;
    if ks != {x} {
      HasLeast(ks - {x});
      var y :| IsLeast(y, ks - {x});
      var least := if x < y then x else y;
      forall q | q in ks ensures least <= q {
        if q != x {
          assert q in ks - {x};
        }
      }
      assert IsLeast(least, ks);
    } else {
      assert IsLeast(x, ks);
    }
  }

  function MinKey(ks: set<nat>): (p: nat)
    requires ks != {}
    ensures p in ks && forall q :: q in ks ==> p <= q
  {
    HasLeast(ks);
    var p :| IsLeast(p, ks); p
  }

  /** The overridden offsets at or past `q`. */
  function KeysFrom(m: map<nat, Attrs>, q: nat): (r: set<nat>)
    ensures forall k :: k in r <==> k in m && k >= q
  {
    set k | k in m && k >= q
  }

  /** The end of the run of bytes from `q` on that `m` overrides with `attrs`. */
  function RunEnd(m: map<nat, Attrs>, q: nat, attrs: Attrs): (e: nat)
    ensures q <= e
    ensures forall p: nat :: q <= p < e ==> p in m && m[p] == attrs
    ensures e !in m || m[e] != attrs
    decreases KeysFrom(m, q)
  {
    if q in m && m[q] == attrs then
      assert KeysFrom(m, q + 1) < KeysFrom(m, q) by {
        assert KeysFrom(m, q + 1) <= KeysFrom(m, q);
        assert q in KeysFrom(m, q) && q !in KeysFrom(m, q + 1);
      }
      RunEnd(m, q + 1, attrs)
    else q
  }

  /** The spans are non-empty and agree with `m`. */
  predicate AllAgree(spans: seq<Span>, m: map<nat, Attrs>) {
    forall k :: 0 <= k < |spans| ==> spans[k].start < spans[k].end && SpanAgrees(spans[k], m)
  }

  /** The spans are disjoint and in ascending order. */
  predicate Ascending(spans: seq<Span>) {
    forall k, j :: 0 <= k < j < |spans| ==> spans[k].end <= spans[j].start
  }

  /** Two touching spans carry different attributes, so each run is maximal. */
  predicate Coalesced(spans: seq<Span>) {
    forall k :: 0 < k < |spans| && spans[k - 1].end == spans[k].start ==> spans[k - 1].attrs != spans[k].attrs
  }

  /** The spans are the canonical ranges of a range map for `m`. */
  predicate RunsOf(spans: seq<Span>, m: map<nat, Attrs>) {
    AllAgree(spans, m) && Ascending(spans) && Coalesced(spans)
  }

  /** The run [p, e) of `m`, when `m` has no offset after `p` and before `e` that it leaves out. */
  predicate LeastRun(m: map<nat, Attrs>, p: nat, e: nat) {
    && p in m && p < e && SpanAgrees(Span(p, e, m[p]), m)
    && (forall q :: q in m && q !in Range(p, e) ==> e <= q)
    && (e !in m || m[e] != m[p])
  }

  lemma RunsConsAgree(m: map<nat, Attrs>, p: nat, e: nat, tail: seq<Span>)
    requires LeastRun(m, p, e)
    requires AllAgree(tail, m - Range(p, e))
    ensures AllAgree([Span(p, e, m[p])] + tail, m)
    ensures forall k :: 0 <= k < |tail| ==> e <= tail[k].start
  {
    var spans := [Span(p, e, m[p])] + tail;
    var rest := m - Range(p, e);
    forall k | 0 <= k < |tail| ensures e <= tail[k].start && SpanAgrees(tail[k], m) {
      assert SpanAgrees(tail[k], rest);
      assert tail[k].start in rest;
      forall q: nat | tail[k].start <= q < tail[k].end ensures q in m && m[q] == tail[k].attrs {
        assert q in rest && rest[q] == tail[k].attrs;
      }
    }
    forall k | 0 <= k < |spans| ensures spans[k].start < spans[k].end && SpanAgrees(spans[k], m) {
      if k > 0 {
        assert spans[k] == tail[k - 1];
      }
    }
  }

  lemma RunsConsAscending(e: nat, head: Span, tail: seq<Span>)
    requires head.end == e && Ascending(tail)
    requires forall k :: 0 <= k < |tail| ==> e <= tail[k].start
    ensures Ascending([head] + tail)
  {
    var spans := [head] + tail;
    forall k, j | 0 <= k < j < |spans| ensures spans[k].end <= spans[j].start {
      assert spans[j] == tail[j - 1];
      if k > 0 {
        assert spans[k] == tail[k - 1];
      }
    }
  }

  lemma RunsConsCoalesced(m: map<nat, Attrs>, p: nat, e: nat, tail: seq<Span>)
    requires LeastRun(m, p, e)
    requires AllAgree(tail, m - Range(p, e)) && Coalesced(tail)
    ensures Coalesced([Span(p, e, m[p])] + tail)
  {
    var spans := [Span(p, e, m[p])] + tail;
    var rest := m - Range(p, e);
    forall k | 0 < k < |spans| && spans[k - 1].end == spans[k].start
      ensures spans[k - 1].attrs != spans[k].attrs
    {
      assert spans[k] == tail[k - 1];
      if k == 1 {
        assert SpanAgrees(tail[0], rest) && e == tail[0].start;
        assert e in rest && rest[e] == tail[0].attrs;
      } else {
        assert spans[k - 1] == tail[k - 2];
      }
    }
  }

  lemma RunsConsCovered(m: map<nat, Attrs>, p: nat, e: nat, tail: seq<Span>)
    requires LeastRun(m, p, e)
    requires Covered(tail) == (m - Range(p, e)).Keys
    ensures Covered([Span(p, e, m[p])] + tail) == m.Keys
  {
    var spans := [Span(p, e, m[p])] + tail;
    assert spans[1..] == tail;
    assert Covered(spans) == Range(p, e) + (m - Range(p, e)).Keys;
    assert Range(p, e) <= m.Keys by {
      assert SpanAgrees(Span(p, e, m[p]), m);
    }
  }

  /** The maximal runs of `m`, in ascending order. */
  function Runs(m: map<nat, Attrs>): (spans: seq<Span>)
    ensures Covered(spans) == m.Keys
    ensures RunsOf(spans, m)
    decreases m.Keys
  {
    if m.Keys == {} then []
    else
      var p := MinKey(m.Keys);
      var e := RunEnd(m, p, m[p]);
      var rest := m - Range(p, e);
      assert rest.Keys < m.Keys by {
        assert p in m.Keys && p !in rest.Keys;
      }
      var tail := Runs(rest);
      assert LeastRun(m, p, e);
      RunsConsAgree(m, p, e, tail);
      RunsConsAscending(e, Span(p, e, m[p]), tail);
      RunsConsCoalesced(m, p, e, tail);
      RunsConsCovered(m, p, e, tail);
      [Span(p, e, m[p])] + tail
  }

  /**
   * `spans_iter`: the list's spans as maximal ranges, in ascending order;
   * together they cover exactly the overridden bytes.
   */
  function SpansIter(list: AttrsList): (spans: seq<Span>)
    ensures Covered(spans) == list.overrides.Keys
    ensures RunsOf(spans, list.overrides)
  {
    Runs(list.overrides)
  }

  /** The overrides of `full` at the offsets in `keep`. */
  function Restrict(full: map<nat, Attrs>, keep: set<nat>): (r: map<nat, Attrs>)
    ensures forall p :: p in r <==> p in full && p in keep
    ensures forall p :: p in r ==> r[p] == full[p]
  {
    map p | p in full && p in keep :: full[p]
  }

  /** `base` with the overrides `m`, moved up by `offset`, laid over it. */
  function ShiftOnto(base: AttrsList, m: map<nat, Attrs>, offset: nat): (r: AttrsList)
    ensures r.defaults == base.defaults
    ensures r.overrides.Keys == base.overrides.Keys + Shifted(m.Keys, offset)
    ensures forall p: nat ::
              AttrsAt(r, p) == if p >= offset && p - offset in m then m[p - offset] else AttrsAt(base, p)
  {
    AttrsList(base.defaults,
      map p | p in base.overrides.Keys + Shifted(m.Keys, offset) ::
        if p >= offset && p - offset in m then m[p - offset] else base.overrides[p])
  }

  /** The list before `append` lays the other list's spans: the appended bytes take `other`'s defaults if they differ. */
  function AppendBase(list: AttrsList, len: nat, otherLen: nat, other: AttrsList): (r: AttrsList)
    ensures r.defaults == list.defaults
    ensures r.overrides.Keys ==
              list.overrides.Keys + (if other.defaults != list.defaults then Range(len, len + otherLen) else {})
    ensures forall p: nat ::
              AttrsAt(r, p) ==
                if len <= p < len + otherLen && other.defaults != list.defaults then other.defaults
                else AttrsAt(list, p)
  {
    if other.defaults != list.defaults then AddSpan(list, len, len + otherLen, other.defaults) else list
  }

  /**
   * The list `append` builds from `list` (over `len` bytes of text) and
   * `other` (over `otherLen` bytes): when the defaults differ, the appended
   * bytes first take `other`'s defaults; then every span of `other`, moved up
   * by `len`, is laid over the result.
   */
  function AppendedAttrs(list: AttrsList, len: nat, otherLen: nat, other: AttrsList): (r: AttrsList)
    ensures r.defaults == list.defaults
    ensures r.overrides.Keys ==
              list.overrides.Keys
              + (if other.defaults != list.defaults then Range(len, len + otherLen) else {})
              + Shifted(other.overrides.Keys, len)
    ensures forall p: nat ::
              AttrsAt(r, p) ==
                if p >= len && p - len in other.overrides then other.overrides[p - len]
                else if len <= p < len + otherLen && other.defaults != list.defaults then other.defaults
                else AttrsAt(list, p)
  {
    ShiftOnto(AppendBase(list, len, otherLen, other), other.overrides, len)
  }

  /** Every span of the list lies within the first `len` bytes. */
  predicate WithinText(list: AttrsList, len: nat) {
    forall p :: p in list.overrides ==> p < len
  }

  /**
   * When both lists keep their spans within their own text, appending keeps
   * the formatting of every byte: the first `len` bytes look as they did in
   * `list`, the appended bytes as they did in `other`, and the result keeps
   * its spans within the joined text.
   */
  lemma AppendKeepsFormatting(list: AttrsList, len: nat, otherLen: nat, other: AttrsList)
    requires WithinText(list, len) && WithinText(other, otherLen)
    ensures forall p: nat :: p < len ==> AttrsAt(AppendedAttrs(list, len, otherLen, other), p) == AttrsAt(list, p)
    ensures forall p: nat :: len <= p < len + otherLen ==>
      AttrsAt(AppendedAttrs(list, len, otherLen, other), p) == AttrsAt(other, p - len)
    ensures WithinText(AppendedAttrs(list, len, otherLen, other), len + otherLen)
  {
    var r := AppendedAttrs(list, len, otherLen, other);
    var base := AppendBase(list, len, otherLen, other);
    assert r == ShiftOnto(base, other.overrides, len);
    forall p | p in r.overrides ensures p < len + otherLen {
      if p in Shifted(other.overrides.Keys, len) {
        assert p - len in other.overrides;
      } else {
        assert p in base.overrides;
      }
    }
  }

  /** Two lists with the same defaults, offsets and attributes per byte are equal. */
  lemma SameList(a: AttrsList, b: AttrsList)
    requires a.defaults == b.defaults
    requires forall p: nat :: p in a.overrides <==> p in b.overrides
    requires forall p: nat :: p in a.overrides ==> AttrsAt(a, p) == AttrsAt(b, p)
    ensures a == b
  {
    forall p | p in a.overrides ensures a.overrides[p] == b.overrides[p] {
      assert AttrsAt(a, p) == AttrsAt(b, p);
    }
    assert a.overrides == b.overrides;
  }

  /** Splitting a list and appending the two parts back gives the list again. */
  lemma SplitThenAppend(list: AttrsList, index: nat, tailLen: nat)
    ensures AppendedAttrs(SplitOff(list, index).0, index, tailLen, SplitOff(list, index).1) == list
  {
    var parts := SplitOff(list, index);
    var head, tail := parts.0, parts.1;
    var r := AppendedAttrs(head, index, tailLen, tail);
    forall p: nat
      ensures p in r.overrides <==> p in list.overrides
      ensures p in r.overrides ==> AttrsAt(r, p) == AttrsAt(list, p)
    {
      AppendedSameDefaultsAt(head, index, tailLen, tail, p);
      SplitOffAt(list, index, p);
    }
    SameList(r, list);
  }

  /** With equal defaults, `append` only lays `other`'s shifted spans over the list. */
  lemma AppendedSameDefaultsAt(list: AttrsList, len: nat, otherLen: nat, other: AttrsList, p: nat)
    requires other.defaults == list.defaults
    ensures var r := AppendedAttrs(list, len, otherLen, other);
            && (p in r.overrides <==> p in list.overrides || (p >= len && p - len in other.overrides))
            && AttrsAt(r, p) == if p >= len && p - len in other.overrides then other.overrides[p - len] else AttrsAt(list, p)
  {
  }

  /** The byte `p` of a list is found in the first part of its split before `index`, in the second from there on. */
  lemma SplitOffAt(list: AttrsList, index: nat, p: nat)
    ensures var (head, tail) := SplitOff(list, index);
            && (p in list.overrides <==> p in head.overrides || (p >= index && p - index in tail.overrides))
            && AttrsAt(list, p) ==
                 if p >= index && p - index in tail.overrides then tail.overrides[p - index] else AttrsAt(head, p)
  {
    if p >= index {
      var q: nat := p - index;
      assert q + index == p;
    }
  }

  /**
   * One step of `append`'s loop, at byte `p`: if `laid` gives byte `p` what
   * the overrides of `full` on `done` give it, then after laying one more
   * span of `full` it gives byte `p` what the overrides on `done` and the
   * span's bytes give it.
   */
  lemma ShiftOntoAddSpanAt(laid: AttrsList, base: AttrsList, full: map<nat, Attrs>, done: set<nat>, next: set<nat>, s: Span, offset: nat, p: nat)
    requires SpanAgrees(s, full) && next == done + Range(s.start, s.end)
    requires var before := ShiftOnto(base, Restrict(full, done), offset);
             (p in laid.overrides <==> p in before.overrides) && AttrsAt(laid, p) == AttrsAt(before, p)
    ensures var lhs := AddSpan(laid, s.start + offset, s.end + offset, s.attrs);
            var rhs := ShiftOnto(base, Restrict(full, next), offset);
            (p in lhs.overrides <==> p in rhs.overrides) && AttrsAt(lhs, p) == AttrsAt(rhs, p)
  {
    if s.start + offset <= p < s.end + offset {
      assert p - offset in Range(s.start, s.end);
    }
  }

  /** Once the loop has laid spans covering every override of `full`, it has laid all of `full`. */
  lemma RestrictToKeys(full: map<nat, Attrs>, keep: set<nat>)
    requires keep == full.Keys
    ensures Restrict(full, keep) == full
  {
  }

  /** The first `i + 1` spans cover what the first `i` do and the bytes of the next. */
  lemma CoveredNext(spans: seq<Span>, i: nat)
    requires i < |spans|
    ensures Covered(spans[..i + 1]) == Covered(spans[..i]) + Range(spans[i].start, spans[i].end)
  {
    var span := spans[i];
    assert spans[..i + 1] == spans[..i] + [span];
    CoveredConcat(spans[..i], [span]);
    assert Covered([span]) == Range(span.start, span.end) by {
      assert [span][1..] == [];
    }
  }

  /** `list` after laying each span of `spans`, in order and moved up by `offset`, with `add_span`. */
  function LayRuns(list: AttrsList, spans: seq<Span>, offset: nat): (r: AttrsList)
    ensures r.defaults == list.defaults
    decreases |spans|
  {
    if spans == [] then list
    else
      var last := spans[|spans| - 1];
      AddSpan(LayRuns(list, spans[..|spans| - 1], offset), last.start + offset, last.end + offset, last.attrs)
  }

  /** Laying one more span is one more `add_span`. */
  lemma LayRunsNext(list: AttrsList, spans: seq<Span>, i: nat, offset: nat)
    requires i < |spans|
    ensures LayRuns(list, spans[..i + 1], offset)
         == AddSpan(LayRuns(list, spans[..i], offset), spans[i].start + offset, spans[i].end + offset, spans[i].attrs)
  {
    var laid := spans[..i + 1];
    assert laid[..|laid| - 1] == spans[..i];
  }

  /**
   * Laying the first `i` runs of `full` one by one gives every byte what
   * `full`, restricted to the bytes those runs cover and moved up by
   * `offset`, gives it over `base`.
   */
  lemma {:induction false} LayRunsAt(base: AttrsList, full: map<nat, Attrs>, spans: seq<Span>, i: nat, offset: nat, p: nat)
    requires i <= |spans| && AllAgree(spans, full)
    ensures var laid := LayRuns(base, spans[..i], offset);
            var want := ShiftOnto(base, Restrict(full, Covered(spans[..i])), offset);
            (p in laid.overrides <==> p in want.overrides) && AttrsAt(laid, p) == AttrsAt(want, p)
  {
    if i == 0 {
      assert spans[..0] == [];
      assert Restrict(full, {}) == map[];
    } else {
      var j := i - 1;
      LayRunsAt(base, full, spans, j, offset, p);
      LayRunsNext(base, spans, j, offset);
      CoveredNext(spans, j);
      ShiftOntoAddSpanAt(LayRuns(base, spans[..j], offset), base, full, Covered(spans[..j]), Covered(spans[..i]), spans[j], offset, p);
    }
  }

  /** Laying runs of `full` that cover all its overrides lays all of `full`, at byte `p`. */
  lemma LaidAllAt(base: AttrsList, full: map<nat, Attrs>, spans: seq<Span>, offset: nat, p: nat)
    requires AllAgree(spans, full) && Covered(spans) == full.Keys
    ensures var laid, want := LayRuns(base, spans, offset), ShiftOnto(base, full, offset);
            (p in laid.overrides <==> p in want.overrides) && AttrsAt(laid, p) == AttrsAt(want, p)
  {
    LayRunsAt(base, full, spans, |spans|, offset, p);
    assert spans[..|spans|] == spans;
    RestrictToKeys(full, Covered(spans));
  }

  /** Laying runs of `full` that cover all its overrides lays all of `full`. */
  lemma LaidAll(base: AttrsList, full: map<nat, Attrs>, spans: seq<Span>, offset: nat)
    requires AllAgree(spans, full) && Covered(spans) == full.Keys
    ensures LayRuns(base, spans, offset) == ShiftOnto(base, full, offset)
  {
    var laid, want := LayRuns(base, spans, offset), ShiftOnto(base, full, offset);
    forall p: nat ensures (p in laid.overrides <==> p in want.overrides) && AttrsAt(laid, p) == AttrsAt(want, p) {
      LaidAllAt(base, full, spans, offset, p);
    }
    SameList(laid, want);
  }

  /**
   * `append`'s loop is correct: laying every span that `spans_iter` yields
   * for `other`, moved up by `len`, over the base gives `AppendedAttrs`.
   */
  lemma LayRunsAppends(list: AttrsList, len: nat, otherLen: nat, other: AttrsList)
    ensures LayRuns(AppendBase(list, len, otherLen, other), SpansIter(other), len)
         == AppendedAttrs(list, len, otherLen, other)
  {
    var spans := SpansIter(other);
    assert AllAgree(spans, other.overrides);
    LaidAll(AppendBase(list, len, otherLen, other), other.overrides, spans, len);
  }

  /**
   * The attributes half of `append`, on the list as a value: when the
   * defaults differ, the appended bytes first take `other`'s defaults with
   * `add_span`; then every span that `spans_iter` yields for `other` is laid
   * over the list, moved up by `len`, one `add_span` at a time.
   */
  method AppendList(list: AttrsList, len: nat, otherLen: nat, other: AttrsList) returns (r: AttrsList)
    ensures r == AppendedAttrs(list, len, otherLen, other)
  {
    r := AppendBase(list, len, otherLen, other);
    ghost var base := r;
    var spans := SpansIter(other);
    var i := 0;
    while i < |spans|
      invariant 0 <= i <= |spans|
      invariant r == LayRuns(base, spans[..i], len)
    {
      LayRunsNext(base, spans, i, len);
      r := AddSpan(r, spans[i].start + len, spans[i].end + len, spans[i].attrs);
      i := i + 1;
    }
    assert spans[..i] == spans;
    LayRunsAppends(list, len, otherLen, other);
  }

  /**
   * Appending "lo" (defaults `b`, with byte 0 overridden by `bold`) to "hel"
   * (defaults `a`, no spans): the first three bytes keep `a`, byte 3 is
   * `bold` and byte 4 takes the appended line's defaults `b`.
   */
  lemma AppendExample(a: Attrs, b: Attrs, bold: Attrs)
    requires a != b
    ensures var r := AppendedAttrs(New(a), 3, 2, AttrsList(b, map[0 := bold]));
            && r.defaults == a
            && (forall p: nat :: p < 3 ==> AttrsAt(r, p) == a)
            && AttrsAt(r, 3) == bold && AttrsAt(r, 4) == b
            && (forall p: nat :: p >= 5 ==> AttrsAt(r, p) == a)
  {
  }
}
