/** From fields back to an entry: the stanza reader applied to the fields an entry prints. */
module AptStanza {
  import opened Wrappers
  import opened Text
  import opened AptModel
  import opened AptDeb822

  // ------------------------------------------------------------- field lookup

  function Keys(fs: seq<Field>): set<string> {
    set i | 0 <= i < |fs| :: fs[i].key
  }

  predicate DistinctFields(fs: seq<Field>) {
    forall i, j :: 0 <= i < j < |fs| ==> fs[i].key != fs[j].key
  }

  lemma {:induction false} FindAppend(a: seq<Field>, b: seq<Field>, key: string)
    ensures FindField(a + b, key) == if FindField(a, key).Some? then FindField(a, key) else FindField(b, key)
  {
    if a == [] {
      assert a + b == b;
    } else {
      assert (a + b)[1..] == a[1..] + b;
      FindAppend(a[1..], b, key);
    }
  }

  lemma {:induction false} FindExact(fs: seq<Field>, key: string)
    ensures FindField(fs, key).Some? <==> key in Keys(fs)
    ensures FindField(fs, key).Some? ==> FindField(fs, key).value in fs && FindField(fs, key).value.key == key
  {
    if fs != [] {
      FindExact(fs[1..], key);
      assert forall i :: 1 <= i < |fs| ==> fs[i] == fs[1..][i - 1];
      assert forall i :: 0 <= i < |fs| - 1 ==> fs[1..][i] == fs[i + 1];
      assert fs[0].key in Keys(fs);
      if key in Keys(fs[1..]) {
        var i :| 0 <= i < |fs| - 1 && fs[1..][i].key == key;
        assert fs[i + 1].key == key;
      }
    }
  }

  lemma {:induction false} FirstDuplicateExact(fs: seq<Field>)
    ensures FirstDuplicate(fs).None? <==> DistinctFields(fs)
  {
    if fs != [] {
      var front, last := fs[..|fs| - 1], fs[|fs| - 1];
      FirstDuplicateExact(front);
      FindExact(front, last.key);
      assert forall i :: 0 <= i < |front| ==> front[i] == fs[i];
      if last.key in Keys(front) {
        var i :| 0 <= i < |front| && front[i].key == last.key;
        assert fs[i].key == fs[|fs| - 1].key;
      }
    }
  }

  lemma KeysAppend(a: seq<Field>, b: seq<Field>)
    ensures Keys(a + b) == Keys(a) + Keys(b)
  {
    forall k | k in Keys(a) + Keys(b) ensures k in Keys(a + b) {
      if k in Keys(a) {
        var i :| 0 <= i < |a| && a[i].key == k;
        assert (a + b)[i].key == k;
      } else {
        var i :| 0 <= i < |b| && b[i].key == k;
        assert (a + b)[|a| + i].key == k;
      }
    }
  }

  lemma DistinctAppend(a: seq<Field>, b: seq<Field>)
    requires DistinctFields(a) && DistinctFields(b) && Keys(a) !! Keys(b)
    ensures DistinctFields(a + b) && Keys(a + b) == Keys(a) + Keys(b)
  {
    KeysAppend(a, b);
    forall i, j | 0 <= i < j < |a + b| ensures (a + b)[i].key != (a + b)[j].key {
      if i < |a| <= j {
        assert a[i].key in Keys(a) && b[j - |a|].key in Keys(b);
      }
    }
  }

  // --------------------------------------------------------------- known names

  /** The names the reader asks for, as the printer spells them. */
  predicate IsName(k: string) {
    || k == "Types" || k == "URIs" || k == "Suites" || k == "Components" || k == "Architectures"
    || k == "Enabled" || k == "Trusted" || k == "Signed-By"
  }

  lemma LowerIs(s: string, t: string)
    requires |s| == |t| && forall i :: 0 <= i < |s| ==> LowerChar(s[i]) == t[i]
    ensures Lower(s) == t
  {
  }

  lemma LowerNames(k: string)
    requires IsName(k)
    ensures IsKnown(k)
  {
    hide Lower;
    if k == "Types" { LowerIs(k, "types"); }
    else if k == "URIs" { LowerIs(k, "uris"); }
    else if k == "Suites" { LowerIs(k, "suites"); }
    else if k == "Components" { LowerIs(k, "components"); }
    else if k == "Architectures" { LowerIs(k, "architectures"); }
    else if k == "Enabled" { LowerIs(k, "enabled"); }
    else if k == "Trusted" { LowerIs(k, "trusted"); }
    else { LowerIs(k, "signed-by"); }
  }

  lemma NamesAreKnown(k: string)
    requires IsName(k)
    ensures IsKnown(k) && IsKnown(Lower(k)) && !IsName(Lower(k))
  {
    LowerNames(k);
    var l := Lower(k);
    assert l[0] == LowerChar(k[0]);
    assert !IsName(l) by {
      assert 'A' <= k[0] <= 'Z';
    }
    hide IsName;
    assert forall i :: 0 <= i < |l| ==> LowerChar(LowerChar(k[i])) == l[i];
    LowerIs(l, l);
  }

  predicate AllNames(fs: seq<Field>) {
    forall i :: 0 <= i < |fs| ==> IsName(fs[i].key)
  }

  lemma AddSegment(f: seq<Field>, seg: seq<Field>, key: string)
    requires DistinctFields(f) && AllNames(f)
    requires IsName(key) && |seg| <= 1 && (|seg| == 1 ==> seg[0].key == key) && key !in Keys(f)
    ensures DistinctFields(f + seg) && AllNames(f + seg) && Keys(f + seg) <= Keys(f) + {key}
  {
    DistinctAppend(f, seg);
  }

  // --------------------------------------------------- the fields of an entry

  lemma KnownKeys(e: Entry)
    ensures DistinctFields(KnownFields(e)) && AllNames(KnownFields(e))
  {
    hide ComponentFields; hide ArchFields; hide EnabledFields; hide TrustedFields; hide SignedByFields; hide HeadFields; hide IsName;
    hide DistinctFields; hide AllNames; hide Keys;
    SegmentsShort(e);
    HeadKeys(e);
    var f := HeadFields(e);
    AddSegment(f, ComponentFields(e), "Components");
    f := f + ComponentFields(e);
    AddSegment(f, ArchFields(e), "Architectures");
    f := f + ArchFields(e);
    AddSegment(f, EnabledFields(e), "Enabled");
    f := f + EnabledFields(e);
    AddSegment(f, TrustedFields(e), "Trusted");
    f := f + TrustedFields(e);
    AddSegment(f, SignedByFields(e.signedBy), "Signed-By");
  }

  lemma HeadKeys(e: Entry)
    ensures DistinctFields(HeadFields(e)) && AllNames(HeadFields(e)) && Keys(HeadFields(e)) <= {"Types", "URIs", "Suites"}
  {
    hide Join;
  }

  lemma SegmentsShort(e: Entry)
    ensures |ComponentFields(e)| <= 1 && (|ComponentFields(e)| == 1 ==> ComponentFields(e)[0].key == "Components")
    ensures |ArchFields(e)| <= 1 && (|ArchFields(e)| == 1 ==> ArchFields(e)[0].key == "Architectures")
    ensures |EnabledFields(e)| <= 1 && (|EnabledFields(e)| == 1 ==> EnabledFields(e)[0].key == "Enabled")
    ensures |TrustedFields(e)| <= 1 && (|TrustedFields(e)| == 1 ==> TrustedFields(e)[0].key == "Trusted")
    ensures var s := SignedByFields(e.signedBy); |s| <= 1 && (|s| == 1 ==> s[0].key == "Signed-By")
  {
    hide Join; hide Split; hide StuffAll;
  }

  lemma FieldsDistinct(e: Entry)
    requires Printable(e)
    ensures DistinctFields(FieldsOf(e))
  {
    hide KnownFields;
    hide RecordFields;
    KnownKeys(e);
    hide IsName;
    forall k | k in Keys(KnownFields(e)) ensures IsKnown(k) {
      NamesAreKnown(k);
    }
    DistinctAppend(KnownFields(e), RecordFields(LateRecord(e)));
  }

  /** A known name is looked up among the known fields only, in its own spelling. */
  lemma GetKnown(e: Entry, key: string)
    requires Printable(e) && IsName(key)
    ensures GetField(FieldsOf(e), key) == FindField(KnownFields(e), key)
  {
    hide KnownFields;
    hide RecordFields;
    var a, b := KnownFields(e), RecordFields(LateRecord(e));
    KnownKeys(e);
    hide IsName;
    NamesAreKnown(key);
    FindAppend(a, b, key);
    FindAppend(a, b, Lower(key));
    FindExact(b, key);
    FindExact(b, Lower(key));
    FindExact(a, Lower(key));
  }

  lemma FindFront(a: seq<Field>, f: Field, b: seq<Field>)
    requires f.key !in Keys(a)
    ensures FindField(a + [f] + b, f.key) == Some(f)
  {
    Assoc(a, [f], b);
    FindAppend(a, [f] + b, f.key);
    FindExact(a, f.key);
  }

  lemma FindHead(e: Entry)
    ensures FindField(KnownFields(e), "Types") == Some(HeadFields(e)[0])
    ensures FindField(KnownFields(e), "URIs") == Some(HeadFields(e)[1])
    ensures FindField(KnownFields(e), "Suites") == Some(HeadFields(e)[2])
  {
    var h := HeadFields(e);
    var tail := ComponentFields(e) + ArchFields(e) + EnabledFields(e) + TrustedFields(e) + SignedByFields(e.signedBy);
    hide ComponentFields; hide ArchFields; hide EnabledFields; hide TrustedFields; hide SignedByFields;
    assert KnownFields(e) == h + tail;
    hide KnownFields;
    hide FindField;
    FindFront([], h[0], h[1..] + tail);
    FindFront([h[0]], h[1], h[2..] + tail);
    FindFront([h[0], h[1]], h[2], tail);
    assert h + tail == [] + [h[0]] + (h[1..] + tail);
    assert h + tail == [h[0]] + [h[1]] + (h[2..] + tail);
    assert h + tail == [h[0], h[1]] + [h[2]] + tail;
  }

  /** A segment of the fields: at most one field, under a key used nowhere else. */
  predicate Part(fs: seq<Field>, seg: seq<Field>, key: string) {
    && |seg| <= 1
    && (seg != [] ==> seg[0] in fs && seg[0].key == key)
    && (seg == [] ==> key !in Keys(fs))
  }

  lemma FindPart(fs: seq<Field>, seg: seq<Field>, key: string)
    requires DistinctFields(fs) && Part(fs, seg, key)
    ensures FindField(fs, key) == Only(seg)
  {
    FindExact(fs, key);
    if seg != [] {
      assert key in Keys(fs);
    }
  }

  function KeyOf(seg: seq<Field>, key: string): set<string> {
    if seg == [] then {} else {key}
  }

  lemma KnownKeySet(e: Entry)
    ensures Keys(KnownFields(e)) == {"Types", "URIs", "Suites"} + KeyOf(ComponentFields(e), "Components")
      + KeyOf(ArchFields(e), "Architectures") + KeyOf(EnabledFields(e), "Enabled")
      + KeyOf(TrustedFields(e), "Trusted") + KeyOf(SignedByFields(e.signedBy), "Signed-By")
  {
    var h, c, a, n, t, s := HeadFields(e), ComponentFields(e), ArchFields(e), EnabledFields(e),
      TrustedFields(e), SignedByFields(e.signedBy);
    assert h[0].key in Keys(h) && h[1].key in Keys(h) && h[2].key in Keys(h);
    assert Keys(h) == {"Types", "URIs", "Suites"};
    OneKey(c, "Components");
    OneKey(a, "Architectures");
    OneKey(n, "Enabled");
    OneKey(t, "Trusted");
    OneKey(s, "Signed-By");
    hide Keys; hide HeadFields; hide ComponentFields; hide ArchFields; hide EnabledFields; hide TrustedFields;
    hide SignedByFields; hide KeyOf;
    KeysAppend(h, c);
    KeysAppend(h + c, a);
    KeysAppend(h + c + a, n);
    KeysAppend(h + c + a + n, t);
    KeysAppend(h + c + a + n + t, s);
  }

  lemma OneKey(seg: seq<Field>, key: string)
    requires |seg| <= 1 && (seg != [] ==> seg[0].key == key)
    ensures Keys(seg) == KeyOf(seg, key)
  {
    if seg != [] {
      assert seg[0].key in Keys(seg);
    }
  }

  lemma FindOptional(e: Entry)
    ensures FindField(KnownFields(e), "Components") == Only(ComponentFields(e))
    ensures FindField(KnownFields(e), "Architectures") == Only(ArchFields(e))
    ensures FindField(KnownFields(e), "Enabled") == Only(EnabledFields(e))
    ensures FindField(KnownFields(e), "Trusted") == Only(TrustedFields(e))
    ensures FindField(KnownFields(e), "Signed-By") == Only(SignedByFields(e.signedBy))
  {
    var fs := KnownFields(e);
    KnownKeys(e);
    OptionalParts(e);
    hide KnownFields; hide Part; hide ComponentFields; hide ArchFields; hide EnabledFields; hide TrustedFields;
    hide SignedByFields; hide FindField; hide Only; hide AllNames; hide DistinctFields;
    FindPart(fs, ComponentFields(e), "Components");
    FindPart(fs, ArchFields(e), "Architectures");
    FindPart(fs, EnabledFields(e), "Enabled");
    FindPart(fs, TrustedFields(e), "Trusted");
    FindPart(fs, SignedByFields(e.signedBy), "Signed-By");
  }

  lemma SegmentsInside(e: Entry)
    ensures forall f | f in ComponentFields(e) || f in ArchFields(e) || f in EnabledFields(e)
      || f in TrustedFields(e) || f in SignedByFields(e.signedBy) :: f in KnownFields(e)
  {
    hide HeadFields; hide ComponentFields; hide ArchFields; hide EnabledFields; hide TrustedFields; hide SignedByFields;
  }

  lemma OptionalParts(e: Entry)
    ensures Part(KnownFields(e), ComponentFields(e), "Components")
    ensures Part(KnownFields(e), ArchFields(e), "Architectures")
    ensures Part(KnownFields(e), EnabledFields(e), "Enabled")
    ensures Part(KnownFields(e), TrustedFields(e), "Trusted")
    ensures Part(KnownFields(e), SignedByFields(e.signedBy), "Signed-By")
  {
    hide KnownFields; hide Keys;
    KnownKeySet(e);
    SegmentsInside(e);
    PartIs(e, ComponentFields(e), "Components");
    PartIs(e, ArchFields(e), "Architectures");
    PartIs(e, EnabledFields(e), "Enabled");
    PartIs(e, TrustedFields(e), "Trusted");
    PartIs(e, SignedByFields(e.signedBy), "Signed-By");
  }

  lemma PartIs(e: Entry, seg: seq<Field>, key: string)
    requires |seg| <= 1 && (seg != [] ==> seg[0].key == key && seg[0] in KnownFields(e))
    requires seg == [] ==> key !in Keys(KnownFields(e))
    ensures Part(KnownFields(e), seg, key)
  {
  }

  function Only(seg: seq<Field>): Option<Field> {
    if seg == [] then None else Some(seg[0])
  }

  // ------------------------------------------------------------- passed through

  lemma {:induction false} PutNew(r: Record, k: string, v: string)
    requires forall i :: 0 <= i < |r| ==> r[i].0 != k
    ensures Put(r, k, v) == r + [(k, v)]
  {
    if r != [] {
      PutNew(r[1..], k, v);
      assert r == [r[0]] + r[1..];
    }
  }

  lemma {:induction false} PassKnown(fs: seq<Field>)
    requires forall i :: 0 <= i < |fs| ==> IsKnown(fs[i].key)
    ensures Passthrough(fs) == []
  {
    hide IsKnown;
    if fs != [] {
      PassKnown(fs[..|fs| - 1]);
    }
  }

  lemma PassStep(fs: seq<Field>, f: Field)
    requires !IsKnown(f.key)
    ensures Passthrough(fs + [f]) == Put(Passthrough(fs), f.key, Join([f.first] + UnstuffAll(f.conts), "\n"))
  {
    assert (fs + [f])[..|fs|] == fs;
  }

  lemma {:induction false} RecordSnoc(front: Record, last: (string, string))
    ensures RecordFields(front + [last]) == RecordFields(front) + [RecordField(last)]
  {
    hide RecordField;
    assert forall i :: 0 <= i < |front| ==> (front + [last])[i] == front[i];
  }

  lemma LateFront(front: Record, last: (string, string))
    requires LateOk(front + [last])
    ensures LateOk(front) && FieldOk(last) && forall i :: 0 <= i < |front| ==> front[i].0 != last.0
  {
    hide FieldOk;
    var r := front + [last];
    assert r[|front|] == last;
    assert forall i :: 0 <= i < |front| ==> r[i] == front[i];
  }

  /** Unknown fields come through in order, with their value put together again. */
  lemma {:induction false} PassRecord(a: seq<Field>, r: Record)
    requires forall i :: 0 <= i < |a| ==> IsKnown(a[i].key)
    requires LateOk(r)
    ensures Passthrough(a + RecordFields(r)) == r
    decreases |r|
  {
    if r == [] {
      assert a + RecordFields(r) == a;
      PassKnown(a);
    } else {
      hide IsKnown; hide LateOk; hide RecordFields; hide Passthrough; hide Put; hide RecordField; hide FieldOk;
      hide Join; hide UnstuffAll;
      var front, last := r[..|r| - 1], r[|r| - 1];
      assert r == front + [last];
      LateFront(front, last);
      ValueBack(last);
      PutNew(front, last.0, last.1);
      PassRecord(a, front);
      PassStep(a + RecordFields(front), RecordField(last));
      RecordSnoc(front, last);
      Assoc(a, RecordFields(front), [RecordField(last)]);
    }
  }

  lemma ValueBack(kv: (string, string))
    requires FieldOk(kv)
    ensures var f := RecordField(kv);
      !IsKnown(f.key) && f.key == kv.0 && Join([f.first] + UnstuffAll(f.conts), "\n") == kv.1
  {
    var vl := Split(kv.1, '\n');
    UnstuffStuff(vl[1..]);
    assert [vl[0]] + vl[1..] == vl;
    JoinOfSplit(kv.1, '\n');
  }

  // ----------------------------------------------------------- the entry again

  lemma SignedByBack(s: Option<string>)
    requires SignedByOk(s)
    ensures SignedByOf(Only(SignedByFields(s))) == RereadSigned(s)
  {
    if s.Some? {
      var kl := Split(s.value, '\n');
      if |kl| != 1 {
        UnstuffStuff(kl);
        JoinOfSplit(s.value, '\n');
      }
    }
  }

  lemma TrimShort()
    ensures Trim("yes") == "yes" && Trim("no") == "no"
  {
    hide Trim;
    TrimFixes("yes");
    TrimFixes("no");
  }

  lemma StanzaUsable(e: Entry)
    requires Printable(e)
    ensures StanzaProblem(FieldsOf(e)).None?
  {
    hide FieldsOf;
    FieldsDistinct(e);
    FirstDuplicateExact(FieldsOf(e));
    FindHead(e);
    GetKnown(e, "Types");
    GetKnown(e, "URIs");
    GetKnown(e, "Suites");
  }

  lemma ValuesBack(e: Entry)
    requires Printable(e)
    ensures ValuesOf(FieldsOf(e), "Types") == e.types && ValuesOf(FieldsOf(e), "URIs") == e.uris
    ensures ValuesOf(FieldsOf(e), "Suites") == e.suites && ValuesOf(FieldsOf(e), "Components") == e.components
  {
    hide FieldsOf;
    FindHead(e);
    FindOptional(e);
    GetKnown(e, "Types");
    GetKnown(e, "URIs");
    GetKnown(e, "Suites");
    GetKnown(e, "Components");
    TypesAreWords(e.types);
    WordsOfJoin(e.types, ' ', SpaceComma);
    WordsOfJoin(e.uris, ' ', SpaceComma);
    WordsOfJoin(e.suites, ' ', SpaceComma);
    WordsOfJoin(e.components, ' ', SpaceComma);
  }

  lemma ArchBack(e: Entry)
    requires e.architectures.Some? ==> AllWords(e.architectures.value, SpaceComma)
    ensures ArchOf(Only(ArchFields(e))) == e.architectures
  {
    if e.architectures.Some? {
      WordsOfJoin(e.architectures.value, ' ', SpaceComma);
    }
  }

  lemma TrustedYes(f: Field)
    requires f.first == "yes"
    ensures TrustedOf(Some(f)) && BlobOf(Some(f)) == []
  {
    hide Trim;
    TrimShort();
  }

  lemma TrustedBack(e: Entry)
    requires Blob(e).Some? ==> BlobOk(Blob(e).value)
    ensures TrustedOf(Only(TrustedFields(e))) == e.trusted
    ensures BlobOf(Only(TrustedFields(e))) == Reread(e).options
  {
    if e.trusted {
      TrustedYes(TrustedFields(e)[0]);
    }
    hide BlobOk; hide Lookup; hide LateRecord; hide RereadSigned; hide Trim; hide IsTrue822; hide IsFalse822;
  }

  lemma EnabledBack(e: Entry)
    ensures EnabledOf(Only(EnabledFields(e))) == e.enabled
  {
    hide Trim;
    TrimShort();
  }

  lemma GetOptional(e: Entry)
    requires Printable(e)
    ensures GetField(FieldsOf(e), "Architectures") == Only(ArchFields(e))
    ensures GetField(FieldsOf(e), "Enabled") == Only(EnabledFields(e))
    ensures GetField(FieldsOf(e), "Trusted") == Only(TrustedFields(e))
    ensures GetField(FieldsOf(e), "Signed-By") == Only(SignedByFields(e.signedBy))
  {
    hide FieldsOf; hide KnownFields;
    FindOptional(e);
    GetKnown(e, "Architectures");
    GetKnown(e, "Enabled");
    GetKnown(e, "Trusted");
    GetKnown(e, "Signed-By");
  }

  /** The stanza reader turns the printed fields of an entry into its reread form. */
  lemma StanzaBack(e: Entry)
    requires Printable(e)
    ensures StanzaToEntry(FieldsOf(e)) == Ok(Reread(e))
  {
    StanzaUsable(e);
    ValuesBack(e);
    PassBack(e);
    GetOptional(e);
    ArchBack(e);
    TrustedBack(e);
    EnabledBack(e);
    SignedByBack(e.signedBy);
    hide FieldsOf; hide Passthrough; hide ValuesOf; hide StanzaProblem; hide ArchOf; hide TrustedOf;
    hide EnabledOf; hide BlobOf; hide SignedByOf; hide GetField; hide Only; hide LateRecord;
    hide Printable; hide RereadSigned; hide SignedByFields;
  }

  lemma PassBack(e: Entry)
    requires Printable(e)
    ensures Passthrough(FieldsOf(e)) == LateRecord(e)
  {
    hide KnownFields;
    hide RecordFields;
    hide IsName;
    hide IsKnown;
    KnownKeys(e);
    forall i | 0 <= i < |KnownFields(e)| ensures IsKnown(KnownFields(e)[i].key) {
      NamesAreKnown(KnownFields(e)[i].key);
    }
    PassRecord(KnownFields(e), LateRecord(e));
  }
}
