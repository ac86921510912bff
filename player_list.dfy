/** The player cards: the phone line is shown only for a non-empty phone and
    marked "Celular" when it has eleven digits. */
module PlayerList {
  import opened Lottery
  import opened Store
  import opened AddPlayerDialog

  /** `isMobilePhone`: eleven digits, punctuation ignored. */
  predicate IsMobilePhone(phone: string): (r: bool)
    ensures r ==> 11 <= |phone|
    ensures r ==> IsValidPhone(phone)
  {
    |Digits(phone)| == 11
  }

  /** `player.phone && (...)`. */
  predicate ShowsPhone(p: Player)
  {
    p.phone.Some? && p.phone.value != ""
  }

  /** A mobile number is a valid phone; a valid phone that is not mobile has
      ten digits, the landline form. */
  lemma MobileClassification(phone: string)
    ensures IsMobilePhone(phone) ==> IsValidPhone(phone)
    ensures IsValidPhone(phone) && !IsMobilePhone(phone) <==> |Digits(phone)| == 10
  {
  }

  /** Formatting on entry does not change the classification. */
  lemma FormattingKeepsMobile(typed: string)
    ensures IsMobilePhone(FormatPhone(typed)) <==> IsMobilePhone(typed)
  {
    FormatKeepsDigits(typed);
  }

  /** A player saved through the form with a phone shows the phone line; one
      saved with an empty phone does not. */
  lemma SavedPhoneShown(id: Id, name: string, email: string, phone: string)
    requires Payload(name, email, phone).Send?
    ensures ShowsPhone(Inserted(id, Payload(name, email, phone).data)) <==> phone != ""
  {
  }
}
