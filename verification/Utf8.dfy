/** Lines of UTF-8 text: how many bytes a character takes, and the column of the caret counted in characters. */
module Utf8 {
  import opened Caret
  import opened ErrorDisplay

  /** A Unicode scalar value. */
  predicate Scalar(cp: nat) {
    cp < 0x11_0000 && !(0xD800 <= cp < 0xE000)
  }

  function Byte(n: nat): char
    requires n < 0x100
  {
    n as char
  }

  /** The encoding of section 3 of RFC 3629. */
  function Encode(cp: nat): string
    requires Scalar(cp)
  {
    if cp < 0x80 then [Byte(cp)]
    else if cp < 0x800 then [Byte(0xC0 + cp / 0x40), Byte(0x80 + cp % 0x40)]
    else if cp < 0x1_0000 then
      [Byte(0xE0 + cp / 0x1000), Byte(0x80 + cp / 0x40 % 0x40), Byte(0x80 + cp % 0x40)]
    else
      [Byte(0xF0 + cp / 0x4_0000), Byte(0x80 + cp / 0x1000 % 0x40), Byte(0x80 + cp / 0x40 % 0x40), Byte(0x80 + cp % 0x40)]
  }

  predicate Text(cps: seq<nat>) {
    forall i :: 0 <= i < |cps| ==> Scalar(cps[i])
  }

  function EncodeAll(cps: seq<nat>): string
    requires Text(cps)
  {
    if cps == [] then "" else Encode(cps[0]) + EncodeAll(cps[1..])
  }

  /** The first byte tells how many there are, and each of the others stands for no character. */
  lemma FirstByteTells(cp: nat)
    requires Scalar(cp)
    ensures var e := Encode(cp);
            && 1 <= |e| == Bytes(e[0]) && !Stray(e[0]) && (forall i :: 1 <= i < |e| ==> Stray(e[i]))
            && (Ascii(e[0]) <==> cp < 0x80) && (cp < 0x80 ==> |e| == 1) && (e[0] == '\t' <==> cp == 9)
  {}

  /** The column behind some characters: a tab goes on to the next multiple, everything else takes one column. */
  function Columns(col: nat, cps: seq<nat>, tab: nat): nat
    requires tab > 0
    decreases |cps|
  {
    if cps == [] then col
    else Columns(if cps[0] == 9 then (col / tab + 1) * tab else col + 1, cps[1..], tab)
  }

  lemma OneCharacter(cp: nat, col: nat, tab: nat)
    requires Scalar(cp) && tab > 0
    ensures After(Encode(cp)[0], col, tab) == if cp == 9 then (col / tab + 1) * tab else col + 1
  {
    FirstByteTells(cp);
  }

  /** The counter of the error display counts characters. */
  lemma {:induction false} VisualCountsCharacters(before: string, cps: seq<nat>, n: nat, rest: string, col: nat,
                                                  tab: nat)
    requires Text(cps) && n <= |cps| && tab > 0
    ensures Visual(before + EncodeAll(cps) + rest, |before|, n, col, tab) == Columns(col, cps[..n], tab)
    decreases n
  {
    hide Encode, After, Bytes;
    if n > 0 {
      var e, line := Encode(cps[0]), before + EncodeAll(cps) + rest;
      FirstByteTells(cps[0]);
      OneCharacter(cps[0], col, tab);
      assert before + e + EncodeAll(cps[1..]) + rest == line;
      assert line[|before|] == e[0];
      assert cps[..n][1..] == cps[1..][..n - 1];
      VisualCountsCharacters(before + e, cps[1..], n - 1, rest, After(e[0], col, tab), tab);
    }
  }

  /** The bytes before a character are whole characters, as wide as they are shown. */
  lemma {:induction false} TextIsWhole(before: string, cps: seq<nat>, rest: string, col: nat, tab: nat)
    requires Text(cps) && tab > 0
    ensures var line, c := before + EncodeAll(cps) + rest, |before + EncodeAll(cps)|;
            && Whole(line, |before|, c) && Width(line, |before|, c, col, tab) == Columns(col, cps, tab)
            && ((forall j :: |before| <= j < c ==> Ascii(line[j])) <==> (forall j :: 0 <= j < |cps| ==> cps[j] < 0x80))
    decreases |cps|
  {
    hide Encode, After, Bytes;
    if cps != [] {
      var e, line := Encode(cps[0]), before + EncodeAll(cps) + rest;
      FirstByteTells(cps[0]);
      OneCharacter(cps[0], col, tab);
      assert before + e + EncodeAll(cps[1..]) == before + EncodeAll(cps);
      assert line[|before|] == e[0];
      TextIsWhole(before + e, cps[1..], rest, After(e[0], col, tab), tab);
      var c := |before + EncodeAll(cps)|;
      if cps[0] < 0x80 {
        assert (forall j :: |before| <= j < c ==> Ascii(line[j])) <==> (forall j :: |before| + 1 <= j < c ==> Ascii(line[j]));
        assert cps == [cps[0]] + cps[1..];
      } else {
        assert !Ascii(line[|before|]);
      }
    } else {
      assert before + EncodeAll(cps) == before;
    }
  }

  /** The caret of an ASCII character of a line is in the column in which it is shown if and only if all characters before
      it are ASCII. */
  lemma CaretInTextExactly(cps: seq<nat>, k: nat, tab: nat)
    requires Text(cps) && k < |cps| && cps[k] < 0x80 && tab > 0
    ensures Visual(EncodeAll(cps), 0, |EncodeAll(cps[..k])|, 0, tab) == Columns(0, cps[..k], tab) <==>
            forall j :: 0 <= j < k ==> cps[j] < 0x80
  {
    hide Visual, Columns, Width, Whole, Encode, EncodeAll, Ascii;
    TextBefore(cps, k);
    var before, line := EncodeAll(cps[..k]), EncodeAll(cps);
    assert "" + before + EncodeAll(cps[k..]) == line && "" + before == before;
    TextIsWhole("", cps[..k], EncodeAll(cps[k..]), 0, tab);
    assert (forall j :: 0 <= j < k ==> cps[..k][j] < 0x80) <==> (forall j :: 0 <= j < k ==> cps[j] < 0x80);
    CaretIsRightExactly(line, |before|, tab);
  }

  lemma TextBefore(cps: seq<nat>, k: nat)
    requires Text(cps) && k < |cps|
    ensures Text(cps[..k]) && Text(cps[k..])
    ensures EncodeAll(cps) == EncodeAll(cps[..k]) + EncodeAll(cps[k..])
    ensures var c := |EncodeAll(cps[..k])|; c < |EncodeAll(cps)| && (Ascii(EncodeAll(cps)[c]) <==> cps[k] < 0x80)
  {
    hide Encode, Bytes, Ascii;
    EncodeBoth(cps[..k], cps[k..]);
    assert cps[..k] + cps[k..] == cps && cps[k..][0] == cps[k];
    FirstByteTells(cps[k]);
    var before, behind := EncodeAll(cps[..k]), EncodeAll(cps[k..]);
    assert behind[0] == Encode(cps[k])[0];
    assert (before + behind)[|before|] == behind[0];
  }

  lemma {:induction false} EncodeBoth(a: seq<nat>, b: seq<nat>)
    requires Text(a) && Text(b)
    ensures Text(a + b) && EncodeAll(a + b) == EncodeAll(a) + EncodeAll(b)
  {
    if a == [] {
      assert a + b == b;
    } else {
      assert (a + b)[1..] == a[1..] + b;
      EncodeBoth(a[1..], b);
    }
  }
}
