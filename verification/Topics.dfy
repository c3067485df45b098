/** The topic parser: t/{tenant}/d/{device}/evt[/...]. */
module Topics {
  import opened Messages
  import opened Numerals
  import opened Wrappers

  const MAX_TOPIC_LEN := 1024
  const MAX_TENANT_LEN := 64

  datatype TopicErrorClass = TooLong | Structure | TenantInvalid | DeviceUuidInvalid
  datatype TopicError = TopicError(class_: TopicErrorClass, detail: string)
  datatype ParsedTopic = ParsedTopic(tenant: string, device: Uuid)

  /** The external UUID parser, left abstract. */
  type UuidParser = string -> Option<Uuid>

  /** strings.Split(s, "/"). */
  function Split(s: string): (parts: seq<string>)
    ensures parts != []
  {
    if s == "" then [""]
    else
      var rest := Split(s[1..]);
      if s[0] == '/' then [""] + rest else [[s[0]] + rest[0]] + rest[1..]
  }

  function Join(parts: seq<string>): string
    requires parts != []
  {
    if |parts| == 1 then parts[0] else parts[0] + "/" + Join(parts[1..])
  }

  lemma {:induction false} JoinUndoesSplit(s: string)
    ensures Join(Split(s)) == s
  {
    if s != "" {
      JoinUndoesSplit(s[1..]);
      var rest := Split(s[1..]);
      if s[0] == '/' {
        assert ([""] + rest)[1..] == rest;
      } else {
        var parts := [[s[0]] + rest[0]] + rest[1..];
        assert parts[1..] == rest[1..];
      }
      assert s == [s[0]] + s[1..];
    }
  }

  lemma {:induction false} SplitHasNoSlash(s: string)
    ensures forall p :: p in Split(s) ==> '/' !in p
  {
    if s != "" {
      SplitHasNoSlash(s[1..]);
      assert Split(s[1..])[0] in Split(s[1..]);
    }
  }

  lemma {:induction false} SplitWord(a: string)
    requires '/' !in a
    ensures Split(a) == [a]
  {
    if a != "" {
      SplitWord(a[1..]);
      assert a == [a[0]] + a[1..];
    }
  }

  lemma {:induction false} SplitCons(a: string, rest: string)
    requires '/' !in a
    ensures Split(a + "/" + rest) == [a] + Split(rest)
  {
    var s := a + "/" + rest;
    if a == "" {
      assert s[1..] == rest;
    } else {
      SplitCons(a[1..], rest);
      assert s[1..] == a[1..] + "/" + rest;
      assert a == [a[0]] + a[1..];
    }
  }

  lemma {:induction false} SplitUndoesJoin(parts: seq<string>)
    requires parts != [] && forall p :: p in parts ==> '/' !in p
    ensures Split(Join(parts)) == parts
  {
    if |parts| == 1 {
      SplitWord(parts[0]);
    } else {
      SplitUndoesJoin(parts[1..]);
      SplitCons(parts[0], Join(parts[1..]));
    }
  }

  predicate SlugChar(c: char) {
    'a' <= c <= 'z' || 'A' <= c <= 'Z' || '0' <= c <= '9' || c == '_' || c == '-'
  }

  /** tenantRE together with the two length rules. */
  predicate Slug(s: string) {
    0 < |s| <= MAX_TENANT_LEN && forall i :: 0 <= i < |s| ==> SlugChar(s[i])
  }

  predicate NameChar(c: char) {
    || c in "abcdefghijklmnopqrstuvwxyz" || c in "ABCDEFGHIJKLMNOPQRSTUVWXYZ"
    || c in "0123456789" || c in "_-"
  }

  /** A tenant's name: one to 64 of these characters. */
  predicate TenantName(s: string) {
    1 <= |s| <= 64 && forall c :: c in s ==> NameChar(c)
  }

  lemma Lower(c: char)
    ensures 'a' <= c <= 'z' <==> c in "abcdefghijklmnopqrstuvwxyz"
  {}

  lemma Upper(c: char)
    ensures 'A' <= c <= 'Z' <==> c in "ABCDEFGHIJKLMNOPQRSTUVWXYZ"
  {}

  lemma SlugCharIs(c: char)
    ensures SlugChar(c) <==> NameChar(c)
  {
    Lower(c);
    Upper(c);
  }

  lemma SlugIs(s: string)
    ensures Slug(s) <==> TenantName(s)
  {
    forall c | c in s
      ensures SlugChar(c) <==> NameChar(c)
    {
      SlugCharIs(c);
    }
    if Slug(s) { assert forall c :: c in s ==> SlugChar(c); }
  }

  function ParseTopic(topic: string, parseUuid: UuidParser): Result<ParsedTopic, TopicError> {
    if |topic| > MAX_TOPIC_LEN then Err(TopicError(TooLong, "len=" + DecInt(|topic|)))
    else
      var parts := Split(topic);
      if |parts| < 5 || parts[0] != "t" || parts[2] != "d" || parts[4] != "evt" then
        Err(TopicError(Structure, ""))
      else if !Slug(parts[1]) then Err(TopicError(TenantInvalid, parts[1]))
      else
        match parseUuid(parts[3])
        case None => Err(TopicError(DeviceUuidInvalid, parts[3]))
        case Some(id) => Ok(ParsedTopic(parts[1], id))
  }

  function Stem(tenant: string, device: string): string {
    "t/" + tenant + "/d/" + device + "/evt"
  }

  /** The topic pattern itself, with no mention of splitting: the stem, alone or followed by '/'. */
  predicate Matches(topic: string, tenant: string, device: string) {
    var stem := Stem(tenant, device);
    && '/' !in tenant && '/' !in device
    && stem <= topic
    && (|topic| == |stem| || topic[|stem|] == '/')
  }

  lemma FourSegments(tenant: string, device: string, tail: string)
    requires '/' !in tenant && '/' !in device
    ensures Split("t" + "/" + (tenant + "/" + ("d" + "/" + (device + "/" + tail))))
            == ["t"] + ([tenant] + (["d"] + ([device] + Split(tail))))
  {
    SplitCons(device, tail);
    SplitCons("d", device + "/" + tail);
    SplitCons(tenant, "d" + "/" + (device + "/" + tail));
    SplitCons("t", tenant + "/" + ("d" + "/" + (device + "/" + tail)));
  }

  lemma LastSegment(tail: string)
    requires "evt" <= tail && (|tail| == 3 || tail[3] == '/')
    ensures Split(tail)[0] == "evt"
  {
    if |tail| == 3 {
      assert tail == "evt";
      SplitWord(tail);
    } else {
      assert tail == "evt" + "/" + tail[4..];
      SplitCons("evt", tail[4..]);
    }
  }

  lemma StemIs(tenant: string, device: string)
    ensures var n := |Stem(tenant, device)| - 3;
            && n >= 0 && Stem(tenant, device)[..n] == "t/" + tenant + "/d/" + device + "/"
            && Stem(tenant, device)[n..] == "evt"
  {
    assert Stem(tenant, device) == ("t/" + tenant + "/d/" + device + "/") + "evt";
  }

  lemma SlashBySlash(tenant: string, device: string, tail: string)
    ensures ("t/" + tenant + "/d/" + device + "/") + tail
            == "t" + "/" + (tenant + "/" + ("d" + "/" + (device + "/" + tail)))
  {}

  lemma MatchSplits(topic: string, tenant: string, device: string)
    requires Matches(topic, tenant, device)
    ensures var p := Split(topic);
            |p| >= 5 && p[0] == "t" && p[1] == tenant && p[2] == "d" && p[3] == device && p[4] == "evt"
  {
    var n := |Stem(tenant, device)| - 3;
    var tail := topic[n..];
    StemIs(tenant, device);
    assert topic[..n] == Stem(tenant, device)[..n];
    assert topic == topic[..n] + tail;
    assert tail[..3] == Stem(tenant, device)[n..];
    LastSegment(tail);
    SlashBySlash(tenant, device, tail);
    FourSegments(tenant, device, tail);
  }

  lemma JoinFive(p: seq<string>)
    requires |p| >= 5
    ensures Join(p) == p[0] + "/" + (p[1] + "/" + (p[2] + "/" + (p[3] + "/" + Join(p[4..]))))
  {
    assert p[1..][1..] == p[2..] && p[2..][1..] == p[3..] && p[3..][1..] == p[4..];
    assert Join(p[3..]) == p[3] + "/" + Join(p[4..]);
    assert Join(p[2..]) == p[2] + "/" + Join(p[3..]);
    assert Join(p[1..]) == p[1] + "/" + Join(p[2..]);
  }

  /** What follows the stem's last slash, for segments that start with "evt". */
  lemma StemExtends(tenant: string, device: string, q: seq<string>)
    requires '/' !in tenant && '/' !in device && q != [] && q[0] == "evt"
    ensures Matches(("t/" + tenant + "/d/" + device + "/") + Join(q), tenant, device)
  {
    var front := "t/" + tenant + "/d/" + device + "/";
    assert front + "evt" == Stem(tenant, device);
    if |q| > 1 { assert front + Join(q) == Stem(tenant, device) + "/" + Join(q[1..]); }
  }

  lemma SplitMatches(topic: string)
    requires var p := Split(topic); |p| >= 5 && p[0] == "t" && p[2] == "d" && p[4] == "evt"
    ensures Matches(topic, Split(topic)[1], Split(topic)[3])
  {
    var p := Split(topic);
    JoinUndoesSplit(topic);
    SplitHasNoSlash(topic);
    JoinFive(p);
    SlashBySlash(p[1], p[3], Join(p[4..]));
    StemExtends(p[1], p[3], p[4..]);
  }

  /** The topic names this tenant and this device, with no mention of the parser. */
  ghost predicate Names(topic: string, parseUuid: UuidParser, tenant: string, id: Uuid) {
    && |topic| <= 1024 && TenantName(tenant)
    && exists d :: Matches(topic, tenant, d) && parseUuid(d) == Some(id)
  }

  /** Sound and complete: acceptance is exactly the pattern, and the parts returned are its parts. */
  lemma ParseTopicAccepts(topic: string, parseUuid: UuidParser, tenant: string, id: Uuid)
    ensures ParseTopic(topic, parseUuid) == Ok(ParsedTopic(tenant, id)) <==> Names(topic, parseUuid, tenant, id)
  {
    SlugIs(tenant);
    if ParseTopic(topic, parseUuid) == Ok(ParsedTopic(tenant, id)) {
      SplitMatches(topic);
    }
    if d :| Matches(topic, tenant, d) && parseUuid(d) == Some(id) {
      MatchSplits(topic, tenant, d);
    }
  }

  ghost predicate HasPattern(topic: string) {
    exists t, d :: Matches(topic, t, d)
  }

  /** A rejection names the first rule that fails, in the order length, structure, tenant, device. */
  lemma ParseTopicRejects(topic: string, parseUuid: UuidParser)
    ensures var r := ParseTopic(topic, parseUuid);
            && (|topic| > 1024 <==> r.Err? && r.error.class_ == TooLong)
            && (|topic| > 1024 <==> r == Err(TopicError(TooLong, "len=" + DecInt(|topic|))))
            && (|topic| <= 1024 && !HasPattern(topic) <==> r == Err(TopicError(Structure, "")))
            && (forall t, d :: |topic| <= 1024 && Matches(topic, t, d) ==>
                                 && (!TenantName(t) <==> r == Err(TopicError(TenantInvalid, t)))
                                 && (TenantName(t) && parseUuid(d) == None <==>
                                     r == Err(TopicError(DeviceUuidInvalid, d))))
  {
    var p := Split(topic);
    var shaped := |p| >= 5 && p[0] == "t" && p[2] == "d" && p[4] == "evt";
    if shaped { SplitMatches(topic); }
    forall t, d | Matches(topic, t, d)
      ensures shaped && p[1] == t && p[3] == d && (Slug(t) <==> TenantName(t))
    {
      MatchSplits(topic, t, d);
      SlugIs(t);
    }
  }
}
