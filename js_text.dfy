/** Text handling of the p5.js game: the display name of a leaderboard
    entry, built from the e-mail address it was submitted with. */
module JsText {
  import opened Strings
  import opened PyText

  /** The leaderboard name of an entry: a missing (empty) address shows as
      "Anonymous"; an address with an `@` and a non-empty user part shows
      its first character, three stars, `@` and the second `@`-separated
      field; anything else is shown as it is. */
  function DisplayName(email: string): (r: string)
    ensures email == [] ==> r == "Anonymous"
    ensures email != [] && ('@' !in email || Before(email, '@') == []) ==> r == email
    ensures '@' in email && Before(email, '@') != [] ==>
      && '@' in r
      && Before(r, '@') == [email[0], '*', '*', '*']
      && After(r, '@') == SecondField(email, '@')
  {
    if email == [] then "Anonymous"
    else if '@' !in email then email
    else
      var user := Before(email, '@');
      var domain := SecondField(email, '@');
      if |user| > 0 then
        SplitAt([user[0], '*', '*', '*'], '@', domain);
        [user[0]] + "***@" + domain
      else email
  }

  /** The p5.js name always shows three stars, where the Python masking
      shows one star per hidden character: the two agree on an address
      with a non-empty user part exactly when that part has four
      characters. */
  lemma {:induction false} DisplayNameMatchesMask(email: string)
    requires '@' in email && Before(email, '@') != []
    ensures DisplayName(email) == MaskEmail(email) <==> |Before(email, '@')| == 4
  {
    var user := Before(email, '@');
    var d, m := DisplayName(email), MaskEmail(email);
    if |user| == 4 {
      var shown := Before(m, '@');
      assert shown == Before(d, '@') by {
        assert |shown| == 4;
        assert shown[0] == user[0] && user[0] == email[0];
      }
      assert d == Before(d, '@') + "@" + After(d, '@');
      assert m == Before(m, '@') + "@" + After(m, '@');
    } else {
      assert |Before(d, '@')| != |Before(m, '@')|;
    }
  }
}
