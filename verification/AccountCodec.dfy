/** The public account text: an owner in lower-case hex, an at sign and a chain id. */
module AccountCodec {
  import opened Common

  datatype CodecError = InvalidAccountOwner | InvalidPublicAccount | InvalidChainId

  datatype Parsed<+T> = Good(value: T) | Bad(error: CodecError) {
    predicate IsFailure() {
      Bad?
    }

    function PropagateFailure<U>(): Parsed<U>
      requires Bad?
    {
      Bad(error)
    }

    function Extract(): T
      requires Good?
    {
      value
    }
  }

  datatype PublicAccount = PublicAccount(chainId: string, owner: string)

  const CHAIN_OWNER: string := "0x00"

  predicate IsHexDigit(c: char) {
    '0' <= c <= '9' || 'a' <= c <= 'f' || 'A' <= c <= 'F'
  }

  function LowerChar(c: char): char {
    if 'A' <= c <= 'F' then c - 'A' + 'a' else c
  }

  function Lower(s: string): (r: string)
    ensures |r| == |s| && forall i :: 0 <= i < |s| ==> r[i] == LowerChar(s[i])
  {
    seq(|s|, i requires 0 <= i < |s| => LowerChar(s[i]))
  }

  predicate AllHex(s: string) {
    forall i :: 0 <= i < |s| ==> IsHexDigit(s[i])
  }

  /** An absent or empty owner is the chain itself. */
  predicate IsAbsent(owner: Option<string>) {
    owner == None || owner == Some("")
  }

  function FormatOwner(owner: Option<string>): Parsed<string> {
    if IsAbsent(owner) then Good(CHAIN_OWNER) else
    var text := owner.value;
    if !("0x" <= text) then Bad(InvalidAccountOwner) else
    var suffix := text[2..];
    if suffix == "" || !AllHex(suffix) then Bad(InvalidAccountOwner)
    else Good("0x" + Lower(suffix))
  }

  function ChainIdOf(chainId: Option<string>): Parsed<string> {
    if chainId == None || chainId == Some("") then Bad(InvalidChainId) else Good(chainId.value)
  }

  function FormatAccount(chainId: Option<string>, owner: Option<string>): Parsed<string> {
    var chain :- ChainIdOf(chainId);
    var text :- FormatOwner(owner);
    Good(text + "@" + chain)
  }

  /** Where a character first occurs, or the length. */
  function IndexOf(s: string, c: char): (i: nat)
    ensures i <= |s| && (forall j :: 0 <= j < i ==> s[j] != c) && (i < |s| ==> s[i] == c)
  {
    if s == "" || s[0] == c then 0 else 1 + IndexOf(s[1..], c)
  }

  function ParseAccount(account: string): Parsed<PublicAccount> {
    if ':' in account then Bad(InvalidPublicAccount) else
    if '@' !in account then
      var chain :- ChainIdOf(Some(account));
      Good(PublicAccount(chain, CHAIN_OWNER))
    else
      var at := IndexOf(account, '@');
      assert at < |account|;
      var chain :- ChainIdOf(Some(account[at + 1..]));
      var owner :- FormatOwner(Some(account[..at]));
      Good(PublicAccount(chain, owner))
  }

  // ---- Normal form ----

  lemma LowerHex(s: string)
    requires AllHex(s)
    ensures AllHex(Lower(s)) && Lower(Lower(s)) == Lower(s)
    ensures ':' !in Lower(s) && '@' !in Lower(s)
  {
    assert forall i :: 0 <= i < |s| ==> IsHexDigit(LowerChar(s[i])) && LowerChar(LowerChar(s[i])) == LowerChar(s[i]);
  }

  /** An owner up to hex case, with the absent and empty owners spelled as the chain. */
  function Spelled(owner: Option<string>): string {
    Lower(if IsAbsent(owner) then CHAIN_OWNER else owner.value)
  }

  /** An owner is accepted exactly when it is absent or a hex number after 0x, and is then printed in its spelling. */
  lemma FormatIsSpelling(owner: Option<string>)
    ensures FormatOwner(owner).Good? <==>
      IsAbsent(owner) || (|owner.value| > 2 && owner.value[..2] == "0x" && AllHex(owner.value[2..]))
    ensures FormatOwner(owner).Good? ==> FormatOwner(owner).value == Spelled(owner)
  {
    if IsAbsent(owner) {
      assert Lower(CHAIN_OWNER) == CHAIN_OWNER;
    } else if FormatOwner(owner).Good? {
      var text := owner.value;
      assert text == "0x" + text[2..];
      assert Lower(text) == "0x" + Lower(text[2..]);
    }
  }

  /** A formatted owner is nonempty, free of separators, and formatting it again changes nothing. */
  lemma OwnerNormalForm(owner: Option<string>)
    requires FormatOwner(owner).Good?
    ensures var text := FormatOwner(owner).value;
      text != "" && ':' !in text && '@' !in text && FormatOwner(Some(text)) == Good(text)
  {
    var text := FormatOwner(owner).value;
    var suffix := if IsAbsent(owner) then "00" else owner.value[2..];
    LowerHex(suffix);
    assert Lower("00") == "00";
    assert text == "0x" + Lower(suffix) && text[2..] == Lower(suffix);
  }

  // ---- Printing and parsing ----

  /** Splitting at the first at sign recovers an owner that contains none, whatever the chain id contains. */
  lemma FirstAt(owner: string, chain: string)
    requires '@' !in owner
    ensures var text := owner + "@" + chain;
      IndexOf(text, '@') == |owner| && text[..|owner|] == owner && text[|owner| + 1..] == chain && '@' in text
  {
    var text := owner + "@" + chain;
    assert text[|owner|] == '@';
    assert forall i :: 0 <= i < |owner| ==> text[i] == owner[i] && text[i] != '@';
  }

  /**
   * Parsing a printed account succeeds exactly when the chain id has no colon, and then returns the chain id and the
   * normalised owner.
   */
  lemma ParsePrinted(chainId: Option<string>, owner: Option<string>)
    requires FormatAccount(chainId, owner).Good?
    ensures var text := FormatAccount(chainId, owner).value;
      if ':' in chainId.value then ParseAccount(text) == Bad(InvalidPublicAccount)
      else ParseAccount(text) == Good(PublicAccount(chainId.value, FormatOwner(owner).value))
  {
    var printed := FormatOwner(owner).value;
    var chain := chainId.value;
    var text := printed + "@" + chain;
    OwnerNormalForm(owner);
    FirstAt(printed, chain);
    if ':' in chain {
      var i :| 0 <= i < |chain| && chain[i] == ':';
      assert text[|printed| + 1 + i] == ':';
    } else {
      assert ':' !in text;
    }
  }

  /** An accepted account prints, and its printed form parses to the same chain and owner. */
  lemma PrintParsed(account: string)
    requires ParseAccount(account).Good?
    ensures var p := ParseAccount(account).value;
      var printed := FormatAccount(Some(p.chainId), Some(p.owner));
      printed.Good? && ParseAccount(printed.value) == Good(p)
  {
    var p := ParseAccount(account).value;
    if '@' in account {
      var at := IndexOf(account, '@');
      OwnerNormalForm(Some(account[..at]));
      assert forall c :: c in account[at + 1..] ==> c in account;
    } else {
      OwnerNormalForm(None);
    }
    ParsePrinted(Some(p.chainId), Some(p.owner));
  }

  /** Printing identifies two accounts exactly when their chains are equal and their owners print alike. */
  lemma PrintingInjective(c1: Option<string>, o1: Option<string>, c2: Option<string>, o2: Option<string>)
    requires FormatAccount(c1, o1).Good? && FormatAccount(c2, o2).Good?
    ensures FormatAccount(c1, o1) == FormatAccount(c2, o2) <==> c1 == c2 && Spelled(o1) == Spelled(o2)
  {
    var p1, p2 := FormatOwner(o1).value, FormatOwner(o2).value;
    OwnerNormalForm(o1);
    OwnerNormalForm(o2);
    FirstAt(p1, c1.value);
    FirstAt(p2, c2.value);
    FormatIsSpelling(o1);
    FormatIsSpelling(o2);
  }
}
