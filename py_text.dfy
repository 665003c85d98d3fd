/** Text handling of the Python game: e-mail masking for the leaderboard, the
    `TextInput` widget, and the e-mail entry of the game-over screen with the
    address pattern it checks before submitting. */
module PyText {
  import opened Strings
  import opened Entities

  /** Approximation of Python's `str.isprintable` on one character: the
      printable ASCII range, and everything above U+00A0. */
  predicate Printable(c: char) {
    (' ' <= c <= '~') || c > '\U{A0}'
  }

  /** `mask_email`: keep the first character of the local part and star the
      rest; the domain is the second `@`-separated field, so anything after a
      second `@` is dropped.  Empty strings and strings without `@` are
      returned as they are. */
  function MaskEmail(email: string): (r: string)
    ensures '@' !in email ==> r == email
    ensures '@' in email ==> '@' in r
    ensures '@' in email ==>
      var user, shown := Before(email, '@'), Before(r, '@');
      && |shown| == |user|
      && (|user| > 0 ==> shown[0] == user[0])
      && (forall k :: 1 <= k < |shown| ==> shown[k] == '*')
      && After(r, '@') == SecondField(email, '@')
  {
    if email == [] || '@' !in email then email
    else
      var user := Before(email, '@');
      var masked := if |user| > 1 then [user[0]] + Stars(|user| - 1) else user;
      var domain := SecondField(email, '@');
      assert '@' !in masked by {
        if |user| > 1 {
          assert masked[0] == user[0] && user[0] in user;
        }
      }
      SplitAt(masked, '@', domain);
      masked + "@" + domain
  }

  /** Masking a masked address changes nothing. */
  lemma MaskEmailIdempotent(email: string)
    ensures MaskEmail(MaskEmail(email)) == MaskEmail(email)
  {
    var r := MaskEmail(email);
    if '@' in email {
      var shown := Before(r, '@');
      var domain := After(r, '@');
      assert '@' !in domain;
      assert r == shown + "@" + domain;
      var r2 := MaskEmail(r);
      var shown2 := Before(r2, '@');
      assert |shown2| == |shown|;
      assert After(r2, '@') == SecondField(r, '@') == domain;
      assert shown2 == shown by {
        forall k | 0 <= k < |shown| ensures shown2[k] == shown[k] {
        }
      }
      assert r2 == shown2 + "@" + After(r2, '@');
    }
  }

  // ---------------------------------------------------------------------
  // Keyboard and mouse events as the widgets see them.

  datatype KeyCode = Backspace | Return | OtherKey

  /** A key press carries the character it types, if any (pygame's
      `event.unicode` is one character or empty). */
  datatype Event = MouseDown(inside: bool) | KeyDown(key: KeyCode, typed: Option<char>) | OtherEvent

  /** Text after a key press in an active field: Backspace drops the last
      character (nothing on an empty text), Return leaves the text alone, any
      other key appends the character it types when that is printable. */
  function Edit(text: string, key: KeyCode, typed: Option<char>): (r: string)
    ensures key == Backspace ==> r <= text && |r| == (if text == [] then 0 else |text| - 1)
    ensures key == Return ==> r == text
    ensures key == OtherKey && typed.Some? && Printable(typed.value) ==> r == text + [typed.value]
    ensures key == OtherKey && !(typed.Some? && Printable(typed.value)) ==> r == text
  {
    match key
    case Backspace => if text == [] then [] else text[..|text| - 1]
    case Return => text
    case OtherKey => if typed.Some? && Printable(typed.value) then text + [typed.value] else text
  }

  /** The `TextInput` widget: an editable line of text with a blinking
      cursor. */
  class TextInput {
    var active: bool
    var text: string
    var cursorVisible: bool
    var cursorTimer: nat

    /** Frames between two cursor blinks. */
    const BlinkRate: nat := 30

    ghost predicate Valid()
      reads this
    {
      cursorTimer < BlinkRate
    }

    constructor ()
      ensures Valid() && !active && text == "" && cursorVisible && cursorTimer == 0
    {
      active, text := false, "";
      cursorVisible, cursorTimer := true, 0;
    }

    /** `handle_event`: a click activates the field exactly when it lands
        inside it; key presses edit the text only while active; the answer
        is true exactly for Return in an active field. */
    method HandleEvent(ev: Event) returns (entered: bool)
      modifies this`active, this`text
      ensures entered <==> ev.KeyDown? && old(active) && ev.key == Return
      ensures active == (if ev.MouseDown? then ev.inside else old(active))
      ensures text == (if ev.KeyDown? && old(active) then Edit(old(text), ev.key, ev.typed) else old(text))
    {
      entered := false;
      if ev.MouseDown? {
        active := ev.inside;
      }
      if ev.KeyDown? && active {
        match ev.key
        case Backspace =>
          text := if text == [] then [] else text[..|text| - 1];
        case Return =>
          entered := true;
        case OtherKey =>
          if ev.typed.Some? && Printable(ev.typed.value) {
            text := text + [ev.typed.value];
          }
      }
    }

    /** `update`: the cursor blinks every `BlinkRate` frames. */
    method Update()
      requires Valid()
      modifies this`cursorTimer, this`cursorVisible
      ensures Valid()
      ensures old(cursorTimer) + 1 < BlinkRate ==> cursorTimer == old(cursorTimer) + 1 && cursorVisible == old(cursorVisible)
      ensures old(cursorTimer) + 1 == BlinkRate ==> cursorTimer == 0 && cursorVisible == !old(cursorVisible)
    {
      cursorTimer := cursorTimer + 1;
      if cursorTimer >= BlinkRate {
        cursorVisible := !cursorVisible;
        cursorTimer := 0;
      }
    }
  }

  // ---------------------------------------------------------------------
  // The address pattern of the game-over screen:
  //   ^[a-zA-Z0-9_.+-]+@[a-zA-Z0-9-]+\.[a-zA-Z0-9-.]+$

  predicate Alnum(c: char) {
    ('a' <= c <= 'z') || ('A' <= c <= 'Z') || ('0' <= c <= '9')
  }

  predicate LocalChar(c: char) {
    Alnum(c) || c == '_' || c == '.' || c == '+' || c == '-'
  }

  predicate LabelChar(c: char) {
    Alnum(c) || c == '-'
  }

  predicate TailChar(c: char) {
    Alnum(c) || c == '-' || c == '.'
  }

  predicate AllLocal(s: string) {
    forall k :: 0 <= k < |s| ==> LocalChar(s[k])
  }

  predicate AllLabel(s: string) {
    forall k :: 0 <= k < |s| ==> LabelChar(s[k])
  }

  predicate AllTail(s: string) {
    forall k :: 0 <= k < |s| ==> TailChar(s[k])
  }

  /** The pattern read literally: some split of `s` into a non-empty local
      part, `@`, a non-empty host, `.`, and a non-empty tail. */
  ghost predicate WholeMatchSpec(s: string) {
    exists i, j ::
      0 < i && i + 1 < j && j + 1 < |s| && s[i] == '@' && s[j] == '.' &&
      AllLocal(s[..i]) && AllLabel(s[i + 1..j]) && AllTail(s[j + 1..])
  }

  /** The same pattern decided without search: the local part cannot hold an
      `@` and the host cannot hold a `.`, so the first `@` and the first `.`
      after it are the only possible split points. */
  function WholeMatch(s: string): (m: bool)
    ensures m ==> |s| >= 5 && s[|s| - 1] != '\n'
  {
    '@' in s &&
    var local, rest := Before(s, '@'), After(s, '@');
    '.' in rest &&
    var host, tail := Before(rest, '.'), After(rest, '.');
    LastOfConcat(local + ['@'], rest);
    LastOfConcat(host + ['.'], tail);
    |local| > 0 && AllLocal(local) && |host| > 0 && AllLabel(host) && |tail| > 0 && AllTail(tail)
  }

  lemma LastOfConcat(u: string, v: string)
    ensures |v| > 0 ==> (u + v)[|u + v| - 1] == v[|v| - 1]
  {
  }

  /** `re.match` with a trailing `$`: `$` also matches just before a final
      newline. */
  function MatchesEmailPattern(s: string): (m: bool)
    ensures m <==> WholeMatchSpec(s) || (|s| > 0 && s[|s| - 1] == '\n' && WholeMatchSpec(s[..|s| - 1]))
  {
    WholeMatchIsSpec(s);
    WholeMatchIsSpec(if |s| > 0 then s[..|s| - 1] else s);
    WholeMatch(s) || (|s| > 0 && s[|s| - 1] == '\n' && WholeMatch(s[..|s| - 1]))
  }

  lemma WholeMatchIsSpec(s: string)
    ensures WholeMatch(s) <==> WholeMatchSpec(s)
  {
    if WholeMatch(s) {
      WholeMatchWitness(s);
    }
    if WholeMatchSpec(s) {
      var i, j :|
        0 < i && i + 1 < j && j + 1 < |s| && s[i] == '@' && s[j] == '.' &&
        AllLocal(s[..i]) && AllLabel(s[i + 1..j]) && AllTail(s[j + 1..]);
      SplitPointsAreFirst(s, i, j);
    }
  }

  lemma WholeMatchWitness(s: string)
    requires WholeMatch(s)
    ensures WholeMatchSpec(s)
  {
    var local, rest := Before(s, '@'), After(s, '@');
    var host, tail := Before(rest, '.'), After(rest, '.');
    PartsWitness(s, local, rest, host, tail);
  }

  /** A split into local part, `@`, host, `.` and tail is a witness of the
      literal pattern. */
  lemma PartsWitness(s: string, local: string, rest: string, host: string, tail: string)
    requires s == local + "@" + rest && rest == host + "." + tail
    requires |local| > 0 && AllLocal(local) && |host| > 0 && AllLabel(host) && |tail| > 0 && AllTail(tail)
    ensures WholeMatchSpec(s)
  {
    var i, j := |local|, |local| + 1 + |host|;
    Pieces(local, '@', rest);
    Pieces(host, '.', tail);
    SuffixSlice(s, i + 1, j);
    assert s[i + 1..][j - i..] == s[j + 1..];
    SplitWitness(s, i, j);
  }

  lemma SplitWitness(s: string, i: nat, j: nat)
    requires 0 < i && i + 1 < j && j + 1 < |s| && s[i] == '@' && s[j] == '.'
    requires AllLocal(s[..i]) && AllLabel(s[i + 1..j]) && AllTail(s[j + 1..])
    ensures WholeMatchSpec(s)
  {
  }

  /** The three pieces of `u + [c] + v` taken back apart. */
  lemma Pieces(u: string, c: char, v: string)
    ensures (u + [c] + v)[..|u|] == u && (u + [c] + v)[|u|] == c && (u + [c] + v)[|u| + 1..] == v
  {
  }

  lemma SuffixSlice(s: string, i: nat, j: nat)
    requires i <= j <= |s|
    ensures s[i..][..j - i] == s[i..j]
  {
  }

  lemma SplitPointsAreFirst(s: string, i: nat, j: nat)
    requires 0 < i && i + 1 < j && j + 1 < |s| && s[i] == '@' && s[j] == '.'
    requires AllLocal(s[..i]) && AllLabel(s[i + 1..j]) && AllTail(s[j + 1..])
    ensures WholeMatch(s)
  {
    var local, host, tail := s[..i], s[i + 1..j], s[j + 1..];
    assert '@' !in local;
    assert '.' !in host;
    var rest := s[i + 1..];
    assert s == local + "@" + rest;
    SplitAt(local, '@', rest);
    assert rest == host + "." + tail;
    SplitAt(host, '.', tail);
  }

  /** The game-over screen accepts `email` for submission exactly when it is
      non-empty and matches the pattern (the `$` exception cannot arise from
      typed text, since a newline is not printable). */
  lemma SubmittableHasAt(email: string)
    requires MatchesEmailPattern(email)
    ensures email != [] && '@' in email
  {
  }

  // ---------------------------------------------------------------------
  // The game-over screen's own e-mail entry.

  /** What the game-over screen tells the player. */
  datatype Notice = NoNotice | Submitted | SubmitFailed | InvalidEmail

  /** One event on the game-over screen: a click (with which of the input
      box, the Submit button and the Skip button it landed on), a key press,
      or anything else. */
  datatype ScreenEvent = Click(onInput: bool, onSubmit: bool, onSkip: bool)
                       | Key(key: KeyCode, typed: Option<char>)
                       | Ignored

  /** Longest address the game-over screen lets the player type. */
  const MaxEmailLength: nat := 30

  /** What a submission attempt leaves behind: an accepted valid address is
      submitted and ends the screen, a refused one reports the failure, and an
      invalid or empty one reports that it is invalid; a failed attempt leaves
      the submitted and waiting flags as they were. */
  ghost predicate SubmitOutcome(email: string, accepts: bool, submitted0: bool, waiting0: bool,
                                submitted: bool, waiting: bool, notice: Notice)
  {
    if email != [] && MatchesEmailPattern(email) then
      if accepts then submitted && !waiting && notice == Submitted
      else submitted == submitted0 && waiting == waiting0 && notice == SubmitFailed
    else submitted == submitted0 && waiting == waiting0 && notice == InvalidEmail
  }

  class GameOverEntry {
    var email: string
    var inputActive: bool
    var submitted: bool
    var notice: Notice
    var waiting: bool

    ghost predicate Valid()
      reads this
    {
      |email| <= MaxEmailLength && (submitted ==> !waiting)
    }

    constructor ()
      ensures Valid() && email == "" && inputActive && !submitted && notice == NoNotice && waiting
    {
      email, inputActive, submitted, notice, waiting := "", true, false, NoNotice, true;
    }

    /** Try to submit the current address; `serverAccepts` is the answer of
        the leaderboard service, consulted only for a valid address. */
    method Submit(serverAccepts: bool)
      requires Valid()
      modifies this`submitted, this`notice, this`waiting
      ensures Valid()
      ensures email != [] && MatchesEmailPattern(email) && serverAccepts ==> submitted && !waiting && notice == Submitted
      ensures email != [] && MatchesEmailPattern(email) && !serverAccepts ==> submitted == old(submitted) && waiting == old(waiting) && notice == SubmitFailed
      ensures !(email != [] && MatchesEmailPattern(email)) ==> submitted == old(submitted) && waiting == old(waiting) && notice == InvalidEmail
    {
      if email != [] && MatchesEmailPattern(email) {
        if serverAccepts {
          notice, submitted, waiting := Submitted, true, false;
        } else {
          notice := SubmitFailed;
        }
      } else {
        notice := InvalidEmail;
      }
    }

    /** One event of the game-over screen's loop. */
    method HandleEvent(ev: ScreenEvent, serverAccepts: bool)
      requires Valid()
      modifies this
      ensures Valid()
      ensures ev.Key? && old(inputActive) && ev.key == Return ==>
        email == old(email) && inputActive == old(inputActive) &&
        SubmitOutcome(email, serverAccepts, old(submitted), old(waiting), submitted, waiting, notice)
      ensures ev.Click? && !ev.onInput && ev.onSubmit && old(email) != [] ==>
        inputActive == old(inputActive) &&
        SubmitOutcome(email, serverAccepts, old(submitted), old(waiting), submitted, waiting, notice)
      ensures ev.Click? && !ev.onInput && !(ev.onSubmit && old(email) != []) ==>
        inputActive == old(inputActive) && submitted == old(submitted) && notice == old(notice) &&
        waiting == (old(waiting) && !ev.onSkip)
      ensures ev.Key? ==> inputActive == old(inputActive)
      ensures ev.Ignored? ==> inputActive == old(inputActive) && submitted == old(submitted)
      ensures submitted && !old(submitted) ==> email != [] && MatchesEmailPattern(email)
      ensures ev.Click? ==> email == old(email)
      ensures ev.Click? && ev.onInput ==> inputActive && notice == old(notice) && waiting == old(waiting)
      ensures ev.Click? && !ev.onInput && !(ev.onSubmit && email != []) && ev.onSkip ==> !waiting && notice == old(notice)
      ensures ev.Key? && !old(inputActive) ==> email == old(email) && notice == old(notice)
      ensures ev.Key? && old(inputActive) && ev.key == Backspace ==> email == Edit(old(email), Backspace, ev.typed)
      ensures ev.Key? && old(inputActive) && ev.key == OtherKey ==>
        email == (if |old(email)| < MaxEmailLength then Edit(old(email), OtherKey, ev.typed) else old(email))
      ensures ev.Key? && ev.key != Return ==> submitted == old(submitted) && notice == old(notice)
      ensures ev.Ignored? ==> email == old(email) && notice == old(notice) && waiting == old(waiting)
      ensures ev.Key? && !(old(inputActive) && ev.key == Return) ==> submitted == old(submitted) && waiting == old(waiting)
      ensures ev.Click? && ev.onInput ==> submitted == old(submitted)
    {
      match ev
      case Click(onInput, onSubmit, onSkip) =>
        if onInput {
          inputActive := true;
        } else if onSubmit && email != [] {
          Submit(serverAccepts);
        } else if onSkip {
          waiting := false;
        }
      case Key(key, typed) =>
        if inputActive {
          match key
          case Return =>
            Submit(serverAccepts);
          case Backspace =>
            email := if email == [] then [] else email[..|email| - 1];
          case OtherKey =>
            if |email| < MaxEmailLength && typed.Some? && Printable(typed.value) {
              email := email + [typed.value];
            }
        }
      case Ignored =>
    }
  }
}
