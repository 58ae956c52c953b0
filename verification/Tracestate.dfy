/**
 Normalising a `tracestate` header and checking a `traceparent`. A header value is
 taken as the sequence of its UTF-8 bytes, one character each.
 */
module Tracestate {
  import opened Wrappers
  import opened Text

  const MAX_MEMBERS: nat := 32
  const MAX_VALUE: nat := 256
  const MAX_LENGTH: nat := 2048

  predicate LowerAlpha(c: char) {
    'a' <= c <= 'z'
  }

  predicate Digit(c: char) {
    '0' <= c <= '9'
  }

  predicate KeyChar(c: char) {
    LowerAlpha(c) || Digit(c) || c in "_-*/"
  }

  predicate AllKeyChars(s: string) {
    forall i :: 0 <= i < |s| ==> KeyChar(s[i])
  }

  /** `is_tracestate_key`. */
  predicate IsKey(key: string) {
    match SplitOnce(key, '@')
    case Some((tenant, vendor)) =>
      && 1 <= |tenant| <= 241 && (LowerAlpha(tenant[0]) || Digit(tenant[0])) && AllKeyChars(tenant)
      && 1 <= |vendor| <= 14 && LowerAlpha(vendor[0]) && AllKeyChars(vendor)
    case None => 1 <= |key| <= 256 && LowerAlpha(key[0]) && AllKeyChars(key)
  }

  predicate ValueChar(c: char) {
    ' ' <= c <= '+' || '-' <= c <= '<' || '>' <= c <= '~'
  }

  /** `is_tracestate_value`, which does not look at the last character. */
  predicate IsValue(value: string) {
    1 <= |value| <= MAX_VALUE && forall i :: 0 <= i < |value| ==> ValueChar(value[i])
  }

  /** The characters of the grammar by code point: lower-case letters, digits, and every
      printable ASCII character but the comma and the equals sign. */
  lemma CharactersExactly(c: char)
    ensures LowerAlpha(c) <==> 97 <= c as int <= 122
    ensures Digit(c) <==> 48 <= c as int <= 57
    ensures ValueChar(c) <==> 32 <= c as int <= 126 && c != ',' && c != '='
  {}

  // ----- The grammar of section 3.3 of the W3C Trace Context Recommendation --------------

  /** lcalpha 0*255( lcalpha / DIGIT / "_" / "-"/ "*" / "/" ) */
  ghost predicate SimpleKey(key: string) {
    1 <= |key| <= 256 && LowerAlpha(key[0]) && AllKeyChars(key)
  }

  /** tenant-id "@" system-id */
  ghost predicate MultiTenantKey(key: string) {
    exists tenant, system :: key == tenant + "@" + system
      && 1 <= |tenant| <= 241 && (LowerAlpha(tenant[0]) || Digit(tenant[0])) && AllKeyChars(tenant)
      && 1 <= |system| <= 14 && LowerAlpha(system[0]) && AllKeyChars(system)
  }

  /** 0*255(chr) nblk-chr */
  ghost predicate GrammarValue(value: string) {
    && 1 <= |value| <= 256 && (forall i :: 0 <= i < |value| ==> ValueChar(value[i]))
    && value[|value| - 1] != ' '
  }

  /** key "=" value */
  ghost predicate ListMember(member: string, key: string) {
    exists value :: member == key + "=" + value && (SimpleKey(key) || MultiTenantKey(key)) && GrammarValue(value)
  }

  lemma KeyIsGrammar(key: string)
    ensures IsKey(key) <==> SimpleKey(key) || MultiTenantKey(key)
  {
    SplitOnceSplits(key, '@');
    if MultiTenantKey(key) {
      var tenant, system :| key == tenant + "@" + system
        && 1 <= |tenant| <= 241 && (LowerAlpha(tenant[0]) || Digit(tenant[0])) && AllKeyChars(tenant)
        && 1 <= |system| <= 14 && LowerAlpha(system[0]) && AllKeyChars(system);
      assert '@' !in tenant;
      SplitOnceAt(tenant, '@', system);
    }
    if IsKey(key) && SplitOnce(key, '@').Some? {
      var halves := SplitOnce(key, '@').value;
      assert key == halves.0 + "@" + halves.1;
    }
  }

  // ----- The list -----------------------------------------------------------------------

  function KeyOf(member: string): string {
    match SplitOnce(member, '=')
    case Some((key, _)) => key
    case None => ""
  }

  predicate GoodMember(member: string) {
    match SplitOnce(member, '=')
    case Some((key, value)) => IsKey(key) && IsValue(value)
    case None => false
  }

  /** The trimmed, non-empty members, in order. */
  function Members(parts: seq<string>): seq<string> {
    if parts == [] then []
    else
      var member := Trim(parts[|parts| - 1]);
      Members(parts[..|parts| - 1]) + if member == "" then [] else [member]
  }

  predicate DistinctKeys(members: seq<string>) {
    forall i, j :: 0 <= i < j < |members| ==> KeyOf(members[i]) != KeyOf(members[j])
  }

  predicate GoodList(members: seq<string>) {
    (forall i :: 0 <= i < |members| ==> GoodMember(members[i])) && DistinctKeys(members)
  }

  function FirstMembers(members: seq<string>): seq<string> {
    if |members| <= MAX_MEMBERS then members else members[..MAX_MEMBERS]
  }

  /** What a `tracestate` normalises to. */
  function Sanitized(value: string): Option<string> {
    var members := Members(Split(value, ','));
    if |value| <= MAX_LENGTH && members != [] && GoodList(members)
    then Some(Join(FirstMembers(members), ',')) else None
  }

  lemma {:induction false} MembersPrefix(parts: seq<string>, n: nat)
    requires n <= |parts|
    ensures Members(parts[..n]) <= Members(parts)
  {
    if n == |parts| {
      assert parts[..n] == parts;
    } else {
      MembersPrefix(parts[..|parts| - 1], n);
      assert parts[..|parts| - 1][..n] == parts[..n];
    }
  }

  /** What the scan of the first `n` parts has collected. */
  ghost predicate Scanned(parts: seq<string>, n: nat, members: seq<string>, keys: seq<string>)
    requires n <= |parts|
  {
    var seen := Members(parts[..n]);
    && GoodList(seen) && members == FirstMembers(seen)
    && |keys| == |seen| && forall j :: 0 <= j < |keys| ==> keys[j] == KeyOf(seen[j])
  }

  lemma MembersOn(parts: seq<string>, n: nat)
    requires n < |parts|
    ensures Members(parts[..n + 1]) == Members(parts[..n]) + if Trim(parts[n]) == "" then [] else [Trim(parts[n])]
  {
    assert parts[..n + 1][..n] == parts[..n];
  }

  /** One bad or repeated member spoils the whole list, wherever it is. */
  lemma ScanSpoiled(value: string, n: nat, members: seq<string>, keys: seq<string>)
    requires var parts := Split(value, ',');
             && n < |parts| && Scanned(parts, n, members, keys) && Trim(parts[n]) != ""
             && (!GoodMember(Trim(parts[n])) || KeyOf(Trim(parts[n])) in keys)
    ensures Sanitized(value).None?
  {
    var parts := Split(value, ',');
    var all, seen := Members(parts), Members(parts[..n]);
    MembersOn(parts, n);
    MembersPrefix(parts, n + 1);
    assert all[|seen|] == Trim(parts[n]) && all[..|seen|] == seen;
    if GoodMember(Trim(parts[n])) {
      var j :| 0 <= j < |keys| && keys[j] == KeyOf(Trim(parts[n]));
      assert KeyOf(all[j]) == KeyOf(all[|seen|]);
    }
  }

  lemma ScanOn(parts: seq<string>, n: nat, members: seq<string>, keys: seq<string>)
    requires n < |parts| && Scanned(parts, n, members, keys)
    ensures Trim(parts[n]) == "" ==> Scanned(parts, n + 1, members, keys)
    ensures var member := Trim(parts[n]);
            member != "" && GoodMember(member) && KeyOf(member) !in keys ==>
              Scanned(parts, n + 1, if |members| < MAX_MEMBERS then members + [member] else members, keys + [KeyOf(member)])
  {
    var seen, member := Members(parts[..n]), Trim(parts[n]);
    MembersOn(parts, n);
    assert seen + [] == seen;
    if member != "" && GoodMember(member) && KeyOf(member) !in keys {
      forall j | 0 <= j < |seen| ensures KeyOf(seen[j]) != KeyOf(member) {
        assert keys[j] in keys;
      }
    }
  }

  lemma ScanDone(value: string, members: seq<string>, keys: seq<string>)
    requires Scanned(Split(value, ','), |Split(value, ',')|, members, keys) && |value| <= MAX_LENGTH
    ensures Sanitized(value) == if members != [] then Some(Join(members, ',')) else None
  {
    var parts := Split(value, ',');
    assert parts[..|parts|] == parts;
  }

  /** `sanitized_tracestate`, member by member. */
  method Sanitize(value: string) returns (r: Option<string>)
    ensures r == Sanitized(value)
  {
    if |value| > MAX_LENGTH {
      return None;
    }
    var parts := Split(value, ',');
    var members, keys := [], [];
    assert parts[..0] == [];
    for i := 0 to |parts|
      invariant Scanned(parts, i, members, keys)
    {
      ScanOn(parts, i, members, keys);
      var member := Trim(parts[i]);
      if member != "" {
        if !GoodMember(member) || KeyOf(member) in keys {
          ScanSpoiled(value, i, members, keys);
          return None;
        }
        if |members| < MAX_MEMBERS {
          members := members + [member];
        }
        keys := keys + [KeyOf(member)];
      }
    }
    ScanDone(value, members, keys);
    return if members != [] then Some(Join(members, ',')) else None;
  }

  // ----- Soundness ----------------------------------------------------------------------

  lemma {:induction false} MembersFacts(parts: seq<string>, i: nat)
    requires i < |Members(parts)|
    ensures Members(parts)[i] != "" && Trimmed(Members(parts)[i])
    ensures (forall k :: 0 <= k < |parts| ==> ',' !in parts[k]) ==> ',' !in Members(parts)[i]
  {
    var last := |parts| - 1;
    TrimFacts(parts[last]);
    if i < |Members(parts[..last])| {
      MembersFacts(parts[..last], i);
    }
  }

  /** The trim already took what the value check leaves out: a trimmed member's
      value ends in a non-blank. */
  lemma GoodIsListMember(member: string)
    requires Trimmed(member) && GoodMember(member)
    ensures ListMember(member, KeyOf(member))
  {
    SplitOnceSplits(member, '=');
    var halves := SplitOnce(member, '=').value;
    KeyIsGrammar(halves.0);
    assert halves.1[|halves.1| - 1] == member[|member| - 1];
    assert GrammarValue(halves.1);
    assert member == halves.0 + "=" + halves.1;
  }

  lemma KeyHasNoEquals(key: string)
    requires SimpleKey(key) || MultiTenantKey(key)
    ensures '=' !in key
  {}

  lemma ListMemberIsGood(member: string, key: string)
    requires ListMember(member, key)
    ensures GoodMember(member) && KeyOf(member) == key
  {
    var value :| member == key + "=" + value && (SimpleKey(key) || MultiTenantKey(key)) && GrammarValue(value);
    KeyHasNoEquals(key);
    KeyIsGrammar(key);
    SplitOnceAt(key, '=', value);
  }

  /** What an accepted value is made of: the input's own members in order, all of them
      or the first 32, each a grammatical list member, keys distinct. */
  ghost predicate MadeOf(value: string, output: string) {
    var members := FirstMembers(Members(Split(value, ',')));
    && output == Join(members, ',') && Split(output, ',') == members
    && 1 <= |members| <= 32 && members <= Members(Split(value, ',')) && DistinctKeys(members)
    && (|members| < 32 ==> members == Members(Split(value, ',')))
    && forall i :: 0 <= i < |members| ==> ListMember(members[i], KeyOf(members[i]))
  }

  lemma SanitizedIsSound(value: string)
    ensures Sanitized(value).Some? ==> MadeOf(value, Sanitized(value).value)
  {
    if Sanitized(value).Some? {
      var all := Members(Split(value, ','));
      var members := FirstMembers(all);
      JoinSplit(value, ',');
      forall i | 0 <= i < |members| ensures ListMember(members[i], KeyOf(members[i])) && ',' !in members[i] {
        assert members[i] == all[i];
        MembersFacts(Split(value, ','), i);
        GoodIsListMember(all[i]);
      }
      SplitJoin(members, ',');
    }
  }

  /** A value is refused exactly when it is too long, carries nothing, has a
      member outside the grammar, or repeats a key. */
  lemma RefusedExactly(value: string)
    ensures var members := Members(Split(value, ','));
            Sanitized(value).None? <==>
              || |value| > 2048 || members == []
              || (exists i :: 0 <= i < |members| && !ListMember(members[i], KeyOf(members[i])))
              || !DistinctKeys(members)
  {
    var members := Members(Split(value, ','));
    forall i | 0 <= i < |members| ensures GoodMember(members[i]) <==> ListMember(members[i], KeyOf(members[i])) {
      MembersFacts(Split(value, ','), i);
      if GoodMember(members[i]) {
        GoodIsListMember(members[i]);
      }
      if ListMember(members[i], KeyOf(members[i])) {
        ListMemberIsGood(members[i], KeyOf(members[i]));
      }
    }
  }

  // ----- Idempotence ---------------------------------------------------------------------

  function Size(parts: seq<string>): nat {
    if parts == [] then 0 else Size(parts[..|parts| - 1]) + |parts[|parts| - 1]| + 1
  }

  lemma {:induction false} SizePrefix(parts: seq<string>, n: nat)
    requires n <= |parts|
    ensures Size(parts[..n]) <= Size(parts)
  {
    if n == |parts| {
      assert parts[..n] == parts;
    } else {
      SizePrefix(parts[..|parts| - 1], n);
      assert parts[..|parts| - 1][..n] == parts[..n];
    }
  }

  lemma SizeOn(parts: seq<string>, part: string)
    ensures Size(parts + [part]) == Size(parts) + |part| + 1
  {
    assert (parts + [part])[..|parts|] == parts;
  }

  lemma {:induction false} MembersSize(parts: seq<string>)
    ensures Size(Members(parts)) <= Size(parts)
  {
    if parts != [] {
      var init, member := parts[..|parts| - 1], Trim(parts[|parts| - 1]);
      MembersSize(init);
      TrimFacts(parts[|parts| - 1]);
      SizeOn(Members(init), member);
      assert Members(parts) == Members(init) + if member == "" then [] else [member];
      assert Members(init) + [] == Members(init);
    }
  }

  lemma {:induction false} SizeFront(parts: seq<string>)
    requires parts != []
    ensures Size(parts) == |parts[0]| + 1 + Size(parts[1..])
  {
    if |parts| > 1 {
      var init := parts[..|parts| - 1];
      SizeFront(init);
      assert init[1..] == parts[1..][..|parts| - 2];
    }
  }

  lemma {:induction false} JoinSize(parts: seq<string>)
    requires parts != []
    ensures |Join(parts, ',')| + 1 == Size(parts)
  {
    SizeFront(parts);
    if |parts| > 1 {
      JoinSize(parts[1..]);
    }
  }

  lemma {:induction false} MembersOfMembers(members: seq<string>)
    requires forall i :: 0 <= i < |members| ==> members[i] != "" && Trimmed(members[i])
    ensures Members(members) == members
  {
    if members != [] {
      MembersOfMembers(members[..|members| - 1]);
      TrimFacts(members[|members| - 1]);
    }
  }

  lemma OutputFits(value: string)
    ensures Members(Split(value, ',')) != [] ==> |Join(FirstMembers(Members(Split(value, ','))), ',')| <= |value|
  {
    var parts := Split(value, ',');
    var all := Members(parts);
    if all != [] {
      JoinSplit(value, ',');
      JoinSize(parts);
      MembersSize(parts);
      assert FirstMembers(all) == all[..|FirstMembers(all)|];
      SizePrefix(all, |FirstMembers(all)|);
      JoinSize(FirstMembers(all));
    }
  }

  /** A list of at most 32 good, trimmed members is its own normal form. */
  lemma NormalForm(members: seq<string>)
    requires members != [] && |members| <= MAX_MEMBERS && GoodList(members)
    requires Split(Join(members, ','), ',') == members && |Join(members, ',')| <= MAX_LENGTH
    requires forall i :: 0 <= i < |members| ==> members[i] != "" && Trimmed(members[i])
    ensures Sanitized(Join(members, ',')) == Some(Join(members, ','))
  {
    MembersOfMembers(members);
  }

  /** An accepted value re-sanitises to itself. */
  lemma SanitizeIdempotent(value: string)
    ensures Sanitized(value).Some? ==> Sanitized(Sanitized(value).value) == Sanitized(value)
  {
    if Sanitized(value).Some? {
      var all := Members(Split(value, ','));
      var members := FirstMembers(all);
      SanitizedIsSound(value);
      OutputFits(value);
      forall i | 0 <= i < |members| ensures members[i] == all[i] && members[i] != "" && Trimmed(members[i]) {
        MembersFacts(Split(value, ','), i);
      }
      assert GoodList(members);
      NormalForm(members);
    }
  }

  // ----- traceparent ------------------------------------------------------------------------

  const MAX_APPENDED_FIELDS: nat := 12

  predicate IsHex(s: string, length: nat) {
    |s| == length && forall i :: 0 <= i < |s| ==> Digit(s[i]) || 'a' <= s[i] <= 'f'
  }

  predicate NonZero(s: string) {
    exists i :: 0 <= i < |s| && s[i] != '0'
  }

  /** A field is lower-case hexadecimal of its length, and is zero only if every digit
      is. */
  lemma HexFieldExactly(s: string, length: nat)
    ensures IsHex(s, length) <==> |s| == length && forall i :: 0 <= i < |s| ==> s[i] in "0123456789abcdef"
    ensures !NonZero(s) <==> forall i :: 0 <= i < |s| ==> s[i] == '0'
  {
    var digits := "0123456789abcdef";
    forall i | 0 <= i < |s| ensures Digit(s[i]) || 'a' <= s[i] <= 'f' <==> s[i] in digits {
      if Digit(s[i]) {
        assert digits[s[i] as int - '0' as int] == s[i];
      } else if 'a' <= s[i] <= 'f' {
        assert digits[s[i] as int - 'a' as int + 10] == s[i];
      }
    }
  }

  /** Four fixed fields, none zero or reserved; version 00 has no more, a later
      version up to twelve more, none empty. */
  ghost predicate Fields(fields: seq<string>) {
    && |fields| >= 4
    && IsHex(fields[0], 2) && fields[0] != "ff" && IsHex(fields[1], 32) && NonZero(fields[1])
    && IsHex(fields[2], 16) && NonZero(fields[2]) && IsHex(fields[3], 2)
    && (fields[0] == "00" ==> |fields| == 4)
    && |fields| <= 16 && forall i :: 4 <= i < |fields| ==> fields[i] != ""
  }

  /** `is_well_formed_traceparent`. */
  method IsWellFormedTraceparent(value: string) returns (ok: bool)
    ensures ok <==> Fields(Split(value, '-'))
  {
    var fields := Split(value, '-');
    if |fields| < 4 {
      return false;
    }
    if !IsHex(fields[0], 2) || fields[0] == "ff" {
      return false;
    }
    var appended := 0;
    for i := 4 to |fields|
      invariant appended == i - 4 && appended <= MAX_APPENDED_FIELDS
      invariant appended > 0 ==> fields[0] != "00"
      invariant forall j :: 4 <= j < i ==> fields[j] != ""
    {
      appended := appended + 1;
      if fields[0] == "00" || fields[i] == "" || appended > MAX_APPENDED_FIELDS {
        return false;
      }
    }
    return IsHex(fields[1], 32) && NonZero(fields[1]) && IsHex(fields[2], 16) && NonZero(fields[2])
           && IsHex(fields[3], 2);
  }

  lemma JoinFour(a: string, b: string, c: string, d: string)
    ensures Join([a, b, c, d], '-') == a + "-" + b + "-" + c + "-" + d
  {
    assert [a, b, c, d][1..] == [b, c, d] && [b, c, d][1..] == [c, d] && [c, d][1..] == [d];
    assert Join([c, d], '-') == c + "-" + d;
    assert Join([b, c, d], '-') == b + "-" + (c + "-" + d);
    assert Join([a, b, c, d], '-') == a + "-" + (b + "-" + (c + "-" + d));
  }

  /** The closed 55-character form of version 00. */
  ghost predicate Version00(value: string, trace: string, parent: string, flags: string) {
    && value == "00" + "-" + trace + "-" + parent + "-" + flags
    && IsHex(trace, 32) && NonZero(trace) && IsHex(parent, 16) && NonZero(parent) && IsHex(flags, 2)
  }

  /** A version 00 value is accepted exactly in the closed form. */
  lemma Version00Layout(value: string)
    ensures Fields(Split(value, '-')) && Split(value, '-')[0] == "00"
            <==> exists trace, parent, flags :: Version00(value, trace, parent, flags)
  {
    var fields := Split(value, '-');
    JoinSplit(value, '-');
    if Fields(fields) && fields[0] == "00" {
      assert fields == ["00", fields[1], fields[2], fields[3]];
      JoinFour("00", fields[1], fields[2], fields[3]);
      assert Version00(value, fields[1], fields[2], fields[3]);
    }
    forall trace, parent, flags | Version00(value, trace, parent, flags) ensures Fields(fields) && fields[0] == "00" {
      JoinFour("00", trace, parent, flags);
      SplitJoin(["00", trace, parent, flags], '-');
    }
  }
}
