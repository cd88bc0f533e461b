/**
 * The label the topic route shows for a missing field: the camelCase key with
 * a space before each ASCII capital (`replace(/([A-Z])/g, " $1")`) and its
 * first character upper-cased (`replace(/^./, …)`).
 */
module TopicLabel {
  import opened Text

  /** The global replace: a space before every character in `[A-Z]`. */
  function SpaceBeforeCapitals(s: string): (r: string)
    ensures |r| >= |s|
    ensures s != [] && !IsUpper(s[0]) ==> r != [] && r[0] == s[0]
  {
    if s == [] then []
    else (if IsUpper(s[0]) then [' ', s[0]] else [s[0]]) + SpaceBeforeCapitals(s[1..])
  }

  /** The anchored replace: `.` matches any first character except a line
      terminator, and that character is upper-cased. */
  function UpperFirst(s: string): (r: string)
    ensures |r| == |s|
    ensures s != [] ==> r[1..] == s[1..]
    ensures s != [] && !IsLineTerminator(s[0]) ==> r[0] == ToUpperChar(s[0])
    ensures s != [] && IsLineTerminator(s[0]) ==> r == s
  {
    if s == [] || IsLineTerminator(s[0]) then s else [ToUpperChar(s[0])] + s[1..]
  }

  /** The label of a key: one space more per capital; a key that opens with
      a capital is shown with a leading space, any other opening character is
      upper-cased (a line terminator excepted). */
  function Label(key: string): (shown: string)
    ensures |shown| == |key| + CountUpper(key)
    ensures key != [] && !IsUpper(key[0]) && !IsLineTerminator(key[0]) ==> shown[0] == ToUpperChar(key[0])
    ensures key != [] && IsUpper(key[0]) ==> shown[0] == ' ' && shown[1] == key[0]
  {
    SpacedLength(key);
    SpacedOpening(key);
    var spaced := SpaceBeforeCapitals(key);
    assert !IsLineTerminator(' ') && ToUpperChar(' ') == ' ';
    UpperFirst(spaced)
  }

  /** A capital opening the key is preceded by the inserted space. */
  lemma SpacedOpening(s: string)
    ensures s != [] && IsUpper(s[0]) ==>
      |SpaceBeforeCapitals(s)| >= 2 && SpaceBeforeCapitals(s)[0] == ' ' && SpaceBeforeCapitals(s)[1] == s[0]
  {
    if s != [] && IsUpper(s[0]) {
      assert SpaceBeforeCapitals(s) == [' ', s[0]] + SpaceBeforeCapitals(s[1..]);
    }
  }

  function CountUpper(s: string): nat {
    if s == [] then 0 else (if IsUpper(s[0]) then 1 else 0) + CountUpper(s[1..])
  }

  /** The label is the key lengthened by one space per capital. */
  lemma {:induction false} LabelLength(key: string)
    ensures |Label(key)| == |key| + CountUpper(key)
  {
    SpacedLength(key);
  }

  lemma {:induction false} SpacedLength(s: string)
    ensures |SpaceBeforeCapitals(s)| == |s| + CountUpper(s)
  {
    if s != [] {
      SpacedLength(s[1..]);
    }
  }

  /** Every space in the spaced key is followed by the capital it was put
      before, and deleting the spaces gives the key back when it had none. */
  function RemoveSpaces(s: string): (r: string)
    ensures |r| <= |s|
    ensures forall i :: 0 <= i < |r| ==> r[i] != ' '
  {
    if s == [] then [] else (if s[0] == ' ' then [] else [s[0]]) + RemoveSpaces(s[1..])
  }

  lemma {:induction false} RemoveInsertedSpaces(s: string)
    requires forall i :: 0 <= i < |s| ==> s[i] != ' '
    ensures RemoveSpaces(SpaceBeforeCapitals(s)) == s
  {
    if s != [] {
      var head := if IsUpper(s[0]) then [' ', s[0]] else [s[0]];
      var tail := SpaceBeforeCapitals(s[1..]);
      assert SpaceBeforeCapitals(s) == head + tail;
      RemoveSpacesAppend(head, tail);
      assert RemoveSpaces(head) == [s[0]] by {
        if IsUpper(s[0]) {
          assert head[1..] == [s[0]];
        }
      }
      RemoveInsertedSpaces(s[1..]);
      assert s == [s[0]] + s[1..];
    }
  }

  lemma {:induction false} RemoveSpacesAppend(a: string, b: string)
    ensures RemoveSpaces(a + b) == RemoveSpaces(a) + RemoveSpaces(b)
  {
    if a == [] {
      assert a + b == b;
    } else {
      var head := if a[0] == ' ' then [] else [a[0]];
      assert (a + b)[0] == a[0];
      assert (a + b)[1..] == a[1..] + b;
      assert RemoveSpaces(a + b) == head + RemoveSpaces(a[1..] + b);
      RemoveSpacesAppend(a[1..], b);
      assert RemoveSpaces(a) == head + RemoveSpaces(a[1..]);
    }
  }

  function LowerFirst(s: string): (r: string)
    ensures |r| == |s|
  {
    if s == [] then s else [ToLowerChar(s[0])] + s[1..]
  }

  /** Reading a label back: drop the spaces, lower-case the first letter. */
  function Unlabel(shown: string): string {
    LowerFirst(RemoveSpaces(shown))
  }

  /** A camelCase key (no spaces, lower-case first letter) is recovered from
      its label. */
  lemma LabelRoundTrip(key: string)
    requires key != [] && IsLower(key[0])
    requires forall i :: 0 <= i < |key| ==> key[i] != ' '
    ensures Unlabel(Label(key)) == key
  {
    var spaced := SpaceBeforeCapitals(key);
    assert spaced[0] == key[0];
    var up := UpperFirst(spaced);
    assert up == [ToUpperChar(key[0])] + spaced[1..];
    RemoveSpacesAppend([ToUpperChar(key[0])], spaced[1..]);
    RemoveSpacesAppend([key[0]], spaced[1..]);
    assert spaced == [key[0]] + spaced[1..];
    RemoveInsertedSpaces(key);
    assert RemoveSpaces(spaced) == [key[0]] + RemoveSpaces(spaced[1..]);
    assert RemoveSpaces(up) == [ToUpperChar(key[0])] + RemoveSpaces(spaced[1..]);
  }

  /** Appending a capitalised word: the capital gets its space, the rest of
      the word is copied. */
  lemma AppendWord(s: string, c: char, rest: string)
    requires IsUpper(c) && forall i :: 0 <= i < |rest| ==> !IsUpper(rest[i])
    ensures SpaceBeforeCapitals(s + ([c] + rest)) == SpaceBeforeCapitals(s) + [' '] + ([c] + rest)
  {
    SpacedAppend(s, [c] + rest);
    SpacedAppend([c], rest);
    NoCapitals(rest);
  }

  /** For example, the key "mainSignName" is shown as "Main Sign Name". The
      three words are parameters, fixed by the precondition, because unfolding
      the label over one twelve-character literal at once is too costly for
      the verifier; word by word it is cheap. */
  lemma MainSignNameLabel(first: string, second: string, third: string)
    requires first == "main" && second == "Sign" && third == "Name"
    ensures Label(first + second + third) == "Main Sign Name"
  {
    var spaced := SpaceBeforeCapitals(first + second + third);
    MainSignNameSpaced(first, second, third);
    assert spaced[0] == 'm' && spaced[1..] == "ain Sign Name";
    assert UpperFirst(spaced) == ['M'] + "ain Sign Name";
  }

  lemma MainSignNameSpaced(first: string, second: string, third: string)
    requires first == "main" && second == "Sign" && third == "Name"
    ensures SpaceBeforeCapitals(first + second + third) == "main Sign Name"
  {
    assert second == ['S'] + "ign" && third == ['N'] + "ame";
    NoCapitals(first);
    AppendWord(first, 'S', "ign");
    assert SpaceBeforeCapitals(first + second) == first + [' '] + second;
    AppendWord(first + second, 'N', "ame");
    assert SpaceBeforeCapitals(first + second + third) == first + [' '] + second + [' '] + third;
  }

  lemma {:induction false} NoCapitals(s: string)
    requires forall i :: 0 <= i < |s| ==> !IsUpper(s[i])
    ensures SpaceBeforeCapitals(s) == s
  {
    if s != [] {
      NoCapitals(s[1..]);
      assert s == [s[0]] + s[1..];
    }
  }

  lemma {:induction false} SpacedAppend(a: string, b: string)
    ensures SpaceBeforeCapitals(a + b) == SpaceBeforeCapitals(a) + SpaceBeforeCapitals(b)
  {
    if a == [] {
      assert a + b == b;
    } else {
      var head := if IsUpper(a[0]) then [' ', a[0]] else [a[0]];
      assert (a + b)[0] == a[0];
      assert (a + b)[1..] == a[1..] + b;
      assert SpaceBeforeCapitals(a + b) == head + SpaceBeforeCapitals(a[1..] + b);
      SpacedAppend(a[1..], b);
      assert SpaceBeforeCapitals(a) == head + SpaceBeforeCapitals(a[1..]);
    }
  }
}
