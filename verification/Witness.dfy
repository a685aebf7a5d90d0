/** Addresses and rows for the concrete cases: listings with a number, threads with and without one. */
module Witness {
  import opened Records
  import opened Texts
  import opened Identity
  import opened Gate
  import opened Sending

  const AIRBNB := "https://www.airbnb.com"

  /** The start of an address: the scheme and a host, without digits. */
  predicate IsBase(base: string) {
    && StartsWith(base, "https://") && |base| > 8 && '/' !in base[8..]
    && forall c :: c in base ==> !IsDigit(c)
  }

  lemma AirbnbIsBase()
    ensures IsBase(AIRBNB)
  {
    assert AIRBNB[..8] == "https://";
    assert AIRBNB[8..] == "www.airbnb.com";
    forall c | c in AIRBNB
      ensures !IsDigit(c)
    {
      assert c in "https://" || c in "www.airbnb.com";
    }
  }

  function RoomUrl(base: string, digit: char): string { base + "/rooms/" + [digit] }

  /** A thread whose address carries no number. */
  function OldThread(base: string): ThreadUrl { base + "/guest/messages/" + "abc" }

  lemma RoomUrlNamesItsListing(base: string, digit: char)
    requires IsBase(base) && IsDigit(digit)
    ensures ParseListingId(RoomUrl(base, digit)) == Some([digit])
  {
    NumberAtTheEnd(base, "/rooms/", digit);
  }

  lemma {:induction false} NumberAtTheEnd(base: string, marker: string, digit: char)
    requires marker != "" && IsDigit(digit) && forall c :: c in base + marker ==> !IsDigit(c)
    ensures DigitsAfter(base + marker + [digit], marker) == Some([digit])
  {
    var s := base + marker + [digit];
    if base == "" {
      assert s[|marker|..] == [digit] && DigitPrefix([digit][1..]) == "" && DigitPrefix([digit]) == [digit];
    } else {
      assert s[|marker|] == (base + marker)[|marker|];
      assert s[|marker|..][0] == s[|marker|];
      assert s[1..] == base[1..] + marker + [digit];
      NumberAtTheEnd(base[1..], marker, digit);
    }
  }

  lemma RoomUrlsDiffer(base: string, a: char, b: char)
    requires IsBase(base) && IsDigit(a) && IsDigit(b) && a != b
    ensures !Contains(RoomUrl(base, a), "/rooms/" + [b])
  {
    var s, needle := RoomUrl(base, a), "/rooms/" + [b];
    assert needle[7] == b && b !in s;
    forall i | 0 <= i <= |s| && |s[i..]| >= |needle|
      ensures s[i..][7] != needle[7]
    {
      assert s[i..][7] == s[i + 7];
    }
  }

  lemma OldThreadHasNoNumber(base: string)
    requires IsBase(base)
    ensures ParseThreadId(OldThread(base)).None? && IsThreadUrl(OldThread(base))
  {
    var url := OldThread(base);
    NoDigitsNoCapture(url, "/guest/messages/");
    assert url[|base|..] == MESSAGES_PATH + "abc" && url[|base| + |MESSAGES_PATH|..] == "abc";
    assert NamesThread(url, "https://", |base|);
  }

  const EAGER_RULES := Rules((l: Lead) => true, (s: string) => s, (s: string) => s, (s: string) => false)

  /** A fresh lead of the given host id and listing. */
  function FreshLead(base: string, host: HostId, digit: char): Lead {
    Lead(host, RoomUrl(base, digit), None, None, None, LeadDiscovered, 12, true, None, None, None, None, 0)
  }

  /** A lead written to before, its thread known by address only. */
  function OldLead(base: string, host: HostId, digit: char): Lead {
    FreshLead(base, host, digit).(thread := Some(OldThread(base)), status := InitialMsgSent)
  }

  lemma ListingsOfFresh(base: string, host: HostId, digit: char)
    requires IsBase(base) && IsDigit(digit) && IsNumericHostId(host)
    ensures CollectListingIds(FreshLead(base, host, digit)) == {[digit]}
  {
    RoomUrlNamesItsListing(base, digit);
    assert IsDigit(host[0]);
    assert DigitsOf(host, "manual:listing-").None?;
  }

  lemma ListingsDoNotMeet(base: string, host: HostId, a: char, b: char)
    requires IsBase(base) && IsDigit(a) && IsDigit(b) && a != b && IsNumericHostId(host)
    ensures !UrlNamesListing(RoomUrl(base, b), CollectListingIds(FreshLead(base, host, a)))
  {
    ListingsOfFresh(base, host, a);
    RoomUrlsDiffer(base, b, a);
  }
}
