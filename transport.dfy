/** The transport form of a phone number and the deep link that carries it
    (first two lines of `open_chat_for_number`, identical in both scripts). */
module Transport {
  import opened Sequences
  import opened Text

  const WhatsAppWebUrl := "https://web.whatsapp.com"

  /** `s.replace(c, "")`. */
  function Without(s: string, c: char): string
    decreases |s|
  {
    if s == [] then []
    else Without(s[..|s| - 1], c) + (if s[|s| - 1] == c then [] else [s[|s| - 1]])
  }

  /** What `Without` means: every occurrence of `c` is gone, every other character is
      kept as often as before, and the kept characters keep their order. */
  lemma WithoutSpec(s: string, c: char)
    ensures c !in Without(s, c)
    ensures multiset(Without(s, c)) == multiset(s)[c := 0]
    ensures IsSubsequence(Without(s, c), s)
  {
    WithoutCounts(s, c);
    WithoutOrder(s, c);
  }

  lemma {:induction false} WithoutCounts(s: string, c: char)
    ensures multiset(Without(s, c)) == multiset(s)[c := 0]
    decreases |s|
  {
    if s != [] {
      var p, last := s[..|s| - 1], s[|s| - 1];
      assert s == p + [last];
      WithoutCounts(p, c);
      assert multiset(s) == multiset(p) + multiset{last};
    }
  }

  lemma {:induction false} WithoutOrder(s: string, c: char)
    ensures IsSubsequence(Without(s, c), s)
    decreases |s|
  {
    if s != [] {
      var p, last := s[..|s| - 1], s[|s| - 1];
      WithoutOrder(p, c);
      var r := Without(s, c);
      if last != c {
        assert r == Without(p, c) + [last];
        assert r[|r| - 1] == s[|s| - 1];
        assert r[..|r| - 1] == Without(p, c);
      } else {
        assert r == Without(p, c);
      }
    }
  }

  /** `phone_number.strip().replace("+", "").replace(" ", "")`. */
  function Sanitize(number: string): (t: string)
    ensures '+' !in t && ' ' !in t
    ensures multiset(t) == multiset(Trim(number))['+' := 0][' ' := 0]
    ensures IsSubsequence(t, Trim(number))
  {
    var trimmed := Trim(number);
    var noPlus := Without(trimmed, '+');
    var t := Without(noPlus, ' ');
    WithoutSpec(trimmed, '+');
    WithoutSpec(noPlus, ' ');
    SubsequenceTransitive(t, noPlus, trimmed);
    assert multiset(t)['+'] == 0;
    t
  }

  /** The fixed text before and after the number in the "send" deep link. */
  const SendPrefix := WhatsAppWebUrl + "/send?phone="
  const SendSuffix := "&text=&type=phone_number&app_absent=0"

  /** The "send" deep link opened for a sanitised number: the fixed prefix, the number in
      the `phone` parameter, and the fixed tail of parameters. */
  function DeepLink(transport: string): (link: string)
    ensures |link| == |SendPrefix| + |transport| + |SendSuffix|
    ensures link[..|SendPrefix|] == SendPrefix
    ensures link[|SendPrefix|..|link| - |SendSuffix|] == transport
    ensures link[|link| - |SendSuffix|..] == SendSuffix
  {
    var link := SendPrefix + transport + SendSuffix;
    assert link[|SendPrefix|..|link| - |SendSuffix|] == transport;
    link
  }

  /** Different transport forms open different links. */
  lemma DeepLinkInjective(a: string, b: string)
    requires DeepLink(a) == DeepLink(b)
    ensures a == b
  {
    var link := DeepLink(a);
    assert a == link[|SendPrefix|..|link| - |SendSuffix|];
  }

  /** A number that is already free of `+`, spaces and surrounding whitespace is sent as is. */
  lemma {:induction false} WithoutAbsent(s: string, c: char)
    requires c !in s
    ensures Without(s, c) == s
    decreases |s|
  {
    if s != [] {
      WithoutAbsent(s[..|s| - 1], c);
      assert s == s[..|s| - 1] + [s[|s| - 1]];
    }
  }

  lemma SanitizePlain(number: string)
    requires '+' !in number && ' ' !in number && Trim(number) == number
    ensures Sanitize(number) == number
  {
    WithoutAbsent(number, '+');
    WithoutAbsent(number, ' ');
  }

  /** A leading `+` does not change the transport form: `"+" + number` and a number of
      digits open the same link. */
  lemma PlusSameTransport(number: string)
    requires number != [] && forall i :: 0 <= i < |number| ==> '0' <= number[i] <= '9'
    ensures Sanitize("+" + number) == Sanitize(number) == number
  {
    assert '+' !in number && ' ' !in number;
    TrimOfTrimmed(number);
    SanitizePlain(number);
    var plus := "+" + number;
    assert !IsSpace(number[0]) && !IsSpace(number[|number| - 1]);
    TrimOfTrimmed(plus);
    WithoutLeading(number, '+');
    WithoutAbsent(number, ' ');
  }

  /** Removing a character from a string it starts with and does not otherwise hold. */
  lemma {:induction false} WithoutLeading(s: string, c: char)
    requires c !in s
    ensures Without([c] + s, c) == s
    decreases |s|
  {
    if s == [] {
      assert [c] + s == [c];
    } else {
      var t := [c] + s;
      assert t[..|t| - 1] == [c] + s[..|s| - 1];
      WithoutLeading(s[..|s| - 1], c);
      assert s == s[..|s| - 1] + [s[|s| - 1]];
    }
  }
}

