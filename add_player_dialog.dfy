/** The player form: the phone is reformatted on every keystroke as
    "(DD) DDDD-DDDD" or "(DD) DDDDD-DDDD", must have 10 or 11 digits when
    given, and the e-mail is sent only when it is not blank. */
module AddPlayerDialog {
  import opened Lottery
  import opened Store

  predicate IsDigit(c: char)
  {
    '0' <= c <= '9'
  }

  ghost predicate AllDigits(s: string)
  {
    forall i :: 0 <= i < |s| ==> IsDigit(s[i])
  }

  /** `value.replace(/\D/g, '')`: the digits of `s`, in order. */
  function Digits(s: string): (r: string)
    ensures |r| <= |s|
    ensures AllDigits(r)
  {
    if s == [] then []
    else (if IsDigit(s[0]) then [s[0]] else []) + Digits(s[1..])
  }

  /** A character survives exactly when it is a digit. */
  lemma {:induction false} DigitsMembers(s: string)
    ensures forall c :: c in Digits(s) <==> c in s && IsDigit(c)
  {
    if s != [] {
      DigitsMembers(s[1..]);
      assert s == [s[0]] + s[1..];
    }
  }

  lemma {:induction false} DigitsAppend(a: string, b: string)
    ensures Digits(a + b) == Digits(a) + Digits(b)
  {
    if a == [] {
      assert a + b == b;
    } else {
      var rest := a[1..];
      var head := if IsDigit(a[0]) then [a[0]] else [];
      assert a + b != [] && (a + b)[0] == a[0] && (a + b)[1..] == rest + b;
      calc {
        Digits(a + b);
        head + Digits(rest + b);
        { DigitsAppend(rest, b); }
        head + (Digits(rest) + Digits(b));
        (head + Digits(rest)) + Digits(b);
        Digits(a) + Digits(b);
      }
    }
  }

  lemma {:induction false} DigitsOfDigits(s: string)
    requires AllDigits(s)
    ensures Digits(s) == s
  {
    if s != [] {
      assert AllDigits(s[1..]) by {
        forall i | 0 <= i < |s[1..]|
          ensures IsDigit(s[1..][i])
        {
          assert s[1..][i] == s[i + 1];
        }
      }
      DigitsOfDigits(s[1..]);
      assert s == [s[0]] + s[1..];
    }
  }

  /** `formatPhone`: fewer than six digits come back bare (the pattern does
      not match); up to ten are grouped 2-4-rest, more than ten 2-5-rest. */
  function FormatPhone(value: string): (r: string)
    ensures var d := Digits(value);
      && (|d| < 6 ==> r == d)
      && (6 <= |d| ==>
            && |r| == |d| + 4 && r[0] == '(' && r[3..5] == ") "
            && r[if |d| <= 10 then 9 else 10] == '-')
  {
    var d := Digits(value);
    if |d| < 6 then d
    else if |d| <= 10 then "(" + d[..2] + ") " + d[2..6] + "-" + d[6..]
    else "(" + d[..2] + ") " + d[2..7] + "-" + d[7..]
  }

  /** `isValidPhone`: 10 or 11 digits, punctuation ignored. */
  predicate IsValidPhone(phone: string): (r: bool)
    ensures r ==> 10 <= |phone|
    ensures r ==> |FormatPhone(phone)| == |Digits(phone)| + 4
  {
    |Digits(phone)| == 10 || |Digits(phone)| == 11
  }

  lemma {:induction false} NoDigits(s: string)
    requires forall i :: 0 <= i < |s| ==> !IsDigit(s[i])
    ensures Digits(s) == []
  {
    if s != [] {
      NoDigits(s[1..]);
    }
  }

  /** The digits of "(a) b-c" are those of a, b and c. */
  lemma GroupedDigits(a: string, b: string, c: string)
    requires AllDigits(a) && AllDigits(b) && AllDigits(c)
    ensures Digits("(" + a + ") " + b + "-" + c) == a + b + c
  {
    var open, close, dash := "(", ") ", "-";
    NoDigits(open);
    NoDigits(close);
    NoDigits(dash);
    DigitsOfDigits(a);
    DigitsOfDigits(b);
    DigitsOfDigits(c);
    var p1 := open + a;
    DigitsAppend(open, a);
    assert Digits(p1) == a;
    var p2 := p1 + close;
    DigitsAppend(p1, close);
    assert Digits(p2) == a;
    var p3 := p2 + b;
    DigitsAppend(p2, b);
    assert Digits(p3) == a + b;
    var p4 := p3 + dash;
    DigitsAppend(p3, dash);
    assert Digits(p4) == a + b;
    DigitsAppend(p4, c);
    assert Digits(p4 + c) == a + b + c;
  }

  /** Formatting keeps every digit and only digits, in order. */
  lemma FormatKeepsDigits(value: string)
    ensures Digits(FormatPhone(value)) == Digits(value)
  {
    var d := Digits(value);
    if |d| < 6 {
      DigitsOfDigits(d);
    } else if |d| <= 10 {
      assert d[..2] + d[2..6] + d[6..] == d;
      GroupedDigits(d[..2], d[2..6], d[6..]);
    } else {
      assert d[..2] + d[2..7] + d[7..] == d;
      GroupedDigits(d[..2], d[2..7], d[7..]);
    }
  }

  /** Reformatting a formatted phone changes nothing, and formatting never
      changes whether a phone is valid. */
  lemma FormatIdempotent(value: string)
    ensures FormatPhone(FormatPhone(value)) == FormatPhone(value)
    ensures IsValidPhone(FormatPhone(value)) <==> IsValidPhone(value)
  {
    FormatKeepsDigits(value);
  }

  /** The characters `String.prototype.trim` removes that the model knows. */
  predicate IsSpace(c: char)
  {
    || c == ' ' || c == '\t' || c == '\n' || c == '\r' || c == '\U{000B}' || c == '\U{000C}'
    || c == '\U{00A0}' || c == '\U{FEFF}' || c == '\U{2028}' || c == '\U{2029}'
  }

  function TrimStart(s: string): (r: string)
    ensures |r| <= |s| && r == s[|s| - |r|..]
    ensures r != [] ==> !IsSpace(r[0])
    ensures forall i :: 0 <= i < |s| - |r| ==> IsSpace(s[i])
  {
    if s != [] && IsSpace(s[0]) then
      var r := TrimStart(s[1..]);
      assert s[1..][|s| - 1 - |r|..] == s[|s| - |r|..];
      assert forall i :: 1 <= i < |s| - |r| ==> s[i] == s[1..][i - 1];
      r
    else s
  }

  function TrimEnd(s: string): (r: string)
    ensures |r| <= |s| && r == s[..|r|]
    ensures r != [] ==> !IsSpace(r[|r| - 1])
    ensures forall i :: |r| <= i < |s| ==> IsSpace(s[i])
  {
    if s != [] && IsSpace(s[|s| - 1]) then
      var r := TrimEnd(s[..|s| - 1]);
      assert s[..|s| - 1][..|r|] == s[..|r|];
      r
    else s
  }

  /** `trim()`: leading and trailing blanks removed; empty exactly when the
      text is blank. */
  function Trim(s: string): (r: string)
    ensures r == [] <==> forall i :: 0 <= i < |s| ==> IsSpace(s[i])
    ensures r != [] ==> !IsSpace(r[0]) && !IsSpace(r[|r| - 1])
  {
    TrimEnds(s);
    TrimEnd(TrimStart(s))
  }

  /** The two passes of `trim` together: the result starts at the first
      non-blank of `s`, so it is empty only when `s` has none. */
  lemma TrimEnds(s: string)
    ensures var r := TrimEnd(TrimStart(s));
      && (r == [] <==> forall i :: 0 <= i < |s| ==> IsSpace(s[i]))
      && (r != [] ==> !IsSpace(r[0]) && !IsSpace(r[|r| - 1]))
  {
    var t := TrimStart(s);
    var r := TrimEnd(t);
    var k := |s| - |t|;
    if t == [] {
      assert r == [];
    } else {
      assert t[0] == s[k] && !IsSpace(t[0]);
      assert r != [] && r[0] == t[0];
    }
  }

  /** `playerData`: the name as typed, the trimmed e-mail only when not blank
      (otherwise the field is absent), and the phone or null. */
  datatype PlayerData = PlayerData(name: string, email: Option<string>, phone: Option<string>)

  /** What a press on "Adicionar"/"Atualizar" leads to, up to the store call. */
  datatype Submission =
    | Blocked                // the `required` name is empty: the handler never runs
    | PhoneRejected          // a non-empty phone without 10 or 11 digits: alert
    | Send(data: PlayerData) // the payload handed to the store

  /** `handleSubmit` up to the store call, behind the name input's `required`. */
  function Payload(name: string, email: string, phone: string): (r: Submission)
    ensures r.Blocked? <==> name == ""
    ensures r.PhoneRejected? <==> name != "" && phone != "" && !IsValidPhone(phone)
    ensures r.Send? ==> r.data.name == name && r.data.phone == OrNull(phone)
    ensures r.Send? ==> (r.data.email.None? <==> Trim(email) == "")
    ensures r.Send? && r.data.email.Some? ==> r.data.email.value == Trim(email)
  {
    if name == "" then Blocked
    else if phone != "" && !IsValidPhone(phone) then PhoneRejected
    else Send(PlayerData(name, if Trim(email) != "" then Some(Trim(email)) else None, OrNull(phone)))
  }

  /** The row inserted for a new player: an absent e-mail is stored as null. */
  function Inserted(id: Id, data: PlayerData): (r: Player)
    ensures r.id == id && r.name == data.name && r.email == data.email && r.phone == data.phone
  {
    Player(id, data.name, data.email, data.phone)
  }

  /** The row after an edit: an absent e-mail leaves the stored one as it was. */
  function Edited(p: Player, data: PlayerData): (r: Player)
    ensures r.id == p.id && r.name == data.name && r.phone == data.phone
    ensures r.email == if data.email.Some? then data.email else p.email
  {
    p.(name := data.name, email := if data.email.Some? then data.email else p.email, phone := data.phone)
  }

  /** Blanking the e-mail of an existing player does not remove it: the
      payload leaves the field out and the update keeps the old address. */
  lemma BlankEmailKeepsStoredEmail(p: Player, name: string, phone: string)
    requires name != "" && (phone == "" || IsValidPhone(phone))
    ensures Payload(name, " ", phone).Send?
    ensures Edited(p, Payload(name, " ", phone).data).email == p.email
  {
    assert IsSpace(" "[0]);
  }

  /** A phone that went through the keystroke formatting is accepted exactly
      when it has 10 or 11 digits, and it is stored formatted. */
  lemma FormattedPhoneAccepted(name: string, email: string, typed: string)
    requires Digits(typed) != []
    ensures var phone := FormatPhone(typed);
      && (Payload(name, email, phone).Send? <==> name != "" && IsValidPhone(typed))
      && (Payload(name, email, phone).PhoneRejected? <==> name != "" && !IsValidPhone(typed))
      && (Payload(name, email, phone).Send? ==> Payload(name, email, phone).data.phone == Some(phone))
  {
    FormatIdempotent(typed);
    FormatKeepsDigits(typed);
  }
}
