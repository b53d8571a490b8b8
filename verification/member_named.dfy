/** `Guild.get_member_named`: find a cached member by `name#discriminator`
    tag, or by nickname, global name or username. */
module MemberNamed {
  import opened Wrappers
  import opened Entities
  import opened GuildState
  import PyDict
  import Seqs
  import GuildInfo

  /** The position of the last `c` in `s`. */
  function LastIndexOf(s: string, c: char): (r: Option<nat>)
    ensures r.None? <==> c !in s
    ensures r.Some? ==> r.value < |s| && s[r.value] == c && c !in s[r.value + 1..]
    decreases |s|
  {
    if s == [] then None
    else if s[|s| - 1] == c then Some(|s| - 1)
    else
      var r := LastIndexOf(s[..|s| - 1], c);
      assert s == s[..|s| - 1] + [s[|s| - 1]];
      if r.Some? then
        assert s[r.value + 1..] == s[..|s| - 1][r.value + 1..] + [s[|s| - 1]];
        r
      else r
  }

  /** `username, _, discriminator = name.rpartition('#')`, then the swap that
      makes a name without a (non-leading) `#` the username. The result is
      `(username, discriminator)`. */
  function SplitTag(name: string): (r: (string, string))
    ensures '#' !in name ==> r == (name, "")
    ensures r.1 != "" ==> name == r.0 + "#" + r.1 && '#' !in r.1 && r.0 != ""
  {
    match LastIndexOf(name, '#')
    case None => (name, "")
    case Some(i) =>
      var head := name[..i];
      var tail := name[i + 1..];
      assert name == head + "#" + tail;
      if head == "" then (tail, head) else (head, tail)
  }

  /** A tag splits back into its parts: the discriminator never holds `#`. */
  lemma TagRoundTrip(username: string, discriminator: string)
    requires username != "" && '#' !in discriminator
    ensures SplitTag(username + "#" + discriminator) == (username, discriminator)
  {
    var name := username + "#" + discriminator;
    var i := |username|;
    assert name[i] == '#' && name[i + 1..] == discriminator;
    assert name[..i] == username;
  }

  function IsAsciiDigit(c: char): bool {
    '0' <= c <= '9'
  }

  /** `discriminator == '0' or (len(discriminator) == 4 and discriminator.isdigit())`. */
  predicate IsDiscriminator(d: string) {
    d == "0" || (|d| == 4 && forall i :: 0 <= i < 4 ==> IsAsciiDigit(d[i]))
  }

  function HasTag(username: string, discriminator: string): Member -> bool {
    (m: Member) => m.name == username && m.discriminator == discriminator
  }

  /** The fallback predicate: nickname, global name or username equals `name`. */
  function HasName(name: string): Member -> bool {
    (m: Member) => m.nick == Some(name) || m.globalName == Some(name) || m.name == name
  }

  /** The one predicate `get_member_named` scans with, chosen from the shape
      of the name. */
  function NamePredicate(name: string): Member -> bool {
    var (username, discriminator) := SplitTag(name);
    if IsDiscriminator(discriminator) then HasTag(username, discriminator) else HasName(name)
  }

  /** `get_member_named(name)`: with a well-formed discriminator after the
      last `#`, the first cached member with that username and discriminator;
      otherwise the first cached member whose nickname, global name or
      username is the whole string. Members are scanned in store order. */
  function GetMemberNamed(g: Guild, name: string): (r: Option<Member>)
    ensures r.Some? ==> r.value in PyDict.Values(g.members)
    ensures var (u, d) := SplitTag(name);
            IsDiscriminator(d) ==>
              && (r.Some? ==> r.value.name == u && r.value.discriminator == d)
              && (r.None? <==> forall k :: k in g.members.entries ==> !HasTag(u, d)(g.members.entries[k]))
    ensures var (u, d) := SplitTag(name);
            !IsDiscriminator(d) ==>
              && (r.Some? ==> HasName(name)(r.value))
              && (r.None? <==> forall k :: k in g.members.entries ==> !HasName(name)(g.members.entries[k]))
    ensures var vs := PyDict.Values(g.members);
            r.Some? ==> exists i :: 0 <= i < |vs| && vs[i] == r.value && forall j :: 0 <= j < i ==> !NamePredicate(name)(vs[j])
  {
    var members := GuildInfo.MembersView(g);
    var p := NamePredicate(name);
    var r := Seqs.Find(p, members);
    assert members == PyDict.Values(g.members);
    FindOverStore(g, p);
    r
  }

  /** `Find` over the member store answers "is there a cached member with
      `p`" in terms of the store's keys. */
  lemma FindOverStore(g: Guild, p: Member -> bool)
    ensures Seqs.Find(p, PyDict.Values(g.members)).None? <==> forall k :: k in g.members.entries ==> !p(g.members.entries[k])
  {
    var vs := PyDict.Values(g.members);
    var r := Seqs.Find(p, vs);
    if r.None? {
      forall k | k in g.members.entries ensures !p(g.members.entries[k]) {
        PyDict.ValueListed(g.members, k);
        var j :| 0 <= j < |vs| && vs[j] == g.members.entries[k];
      }
    } else {
      var j :| 0 <= j < |vs| && vs[j] == r.value;
      var k := g.members.order[j];
      assert k in g.members.entries && p(g.members.entries[k]);
    }
  }

  /** A cached member is found by their own tag. */
  lemma TagFindsMember(g: Guild, k: int)
    requires k in g.members.entries
    requires g.members.entries[k].name != "" && IsDiscriminator(g.members.entries[k].discriminator)
    ensures var m := g.members.entries[k];
            var r := GetMemberNamed(g, m.name + "#" + m.discriminator);
            r.Some? && r.value.name == m.name && r.value.discriminator == m.discriminator
  {
    var m := g.members.entries[k];
    assert '#' !in m.discriminator by {
      if m.discriminator != "0" {
        assert forall i :: 0 <= i < 4 ==> m.discriminator[i] != '#';
      }
    }
    TagRoundTrip(m.name, m.discriminator);
  }

  /** Without a `#`, a name finds a member exactly when some cached member
      carries it as nickname, global name or username. */
  lemma PlainNameFindsMember(g: Guild, name: string)
    requires '#' !in name
    ensures GetMemberNamed(g, name).Some? <==> exists k :: k in g.members.entries && HasName(name)(g.members.entries[k])
  {
    assert !IsDiscriminator(name) ==> !IsDiscriminator("");
  }

  /** A lookup by tag never falls back to nicknames: when no member has the
      tag, the answer is `None` even if a member's nickname is the whole
      string. */
  lemma TagLookupDoesNotFallBack(g: Guild, username: string, discriminator: string)
    requires username != "" && IsDiscriminator(discriminator)
    requires forall k :: k in g.members.entries ==> !HasTag(username, discriminator)(g.members.entries[k])
    ensures GetMemberNamed(g, username + "#" + discriminator).None?
  {
    assert '#' !in discriminator by {
      if discriminator != "0" {
        assert forall i :: 0 <= i < 4 ==> discriminator[i] != '#';
      }
    }
    TagRoundTrip(username, discriminator);
  }
}
