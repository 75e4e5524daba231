/** Assembly of the system instruction from a base prompt and one guideline
    block per recognised selected store (app/main.py, `get_system_prompt`). */
module Prompt {
  import opened Wrappers
  import Stores

  /** The three kinds of guideline block, in the order they are appended. */
  datatype GuidelineKind = Penalties | LawInterpretations | Announcements

  /** Position of a kind in the fixed appending order. */
  function Rank(k: GuidelineKind): nat
  {
    match k
    case Penalties => 0
    case LawInterpretations => 1
    case Announcements => 2
  }

  const Kinds: seq<GuidelineKind> := [Penalties, LawInterpretations, Announcements]

  /** The selection key whose membership adds a block of kind `k`. */
  function Key(k: GuidelineKind): string
  {
    match k
    case Penalties => Stores.PenaltiesKey
    case LawInterpretations => Stores.LawInterpretationsKey
    case Announcements => Stores.AnnouncementsKey
  }

  const BasePrompt: string :=
    "你是專業的金融法規顧問。請根據參考資料回答問題。\n\n回答時必須：\n"
    + "1. 明確引用來源文件（檔案名稱、日期）\n"
    + "2. 如果資料中沒有相關資訊，請誠實說明\n"
    + "3. 使用繁體中文回答\n"
    + "4. 保持專業、客觀的態度\n"

  const PenaltiesBlock: string :=
    "\n【裁罰案件指引】"
    + "\n- 列舉具體案例與裁罰內容"
    + "\n- 說明受罰機構、罰款金額、違規行為"
    + "\n- 引用相關法律依據"
  const LawInterpretationsBlock: string :=
    "\n【法令函釋指引】"
    + "\n- 解釋法規的具體含義"
    + "\n- 列出修正前後的差異（如有）"
    + "\n- 引用發文字號"
  const AnnouncementsBlock: string :=
    "\n【重要公告指引】"
    + "\n- 說明公告的主要內容"
    + "\n- 列出生效日期（如有）"
    + "\n- 引用公告文號"

  /** The guideline block of each kind; each begins with a line break. */
  function Block(k: GuidelineKind): string
  {
    match k
    case Penalties => PenaltiesBlock
    case LawInterpretations => LawInterpretationsBlock
    case Announcements => AnnouncementsBlock
  }

  /** The kinds whose key is selected, in the fixed order penalties,
      interpretations, announcements, whatever the caller's order. */
  function Selected(selected: seq<string>): (ks: seq<GuidelineKind>)
    ensures forall k :: k in ks <==> Key(k) in selected
    ensures forall i, j :: 0 <= i < j < |ks| ==> Rank(ks[i]) < Rank(ks[j])
  {
    (if Stores.PenaltiesKey in selected then [Penalties] else [])
    + (if Stores.LawInterpretationsKey in selected then [LawInterpretations] else [])
    + (if Stores.AnnouncementsKey in selected then [Announcements] else [])
  }

  function Blocks(ks: seq<GuidelineKind>): (bs: seq<string>)
    ensures |bs| == |ks|
  {
    if ks == [] then [] else [Block(ks[0])] + Blocks(ks[1..])
  }

  /** Python's `"\n".join(parts)`. */
  function JoinLines(parts: seq<string>): string
  {
    if parts == [] then ""
    else if |parts| == 1 then parts[0]
    else parts[0] + "\n" + JoinLines(parts[1..])
  }

  /** The base prompt, then, when there are guidelines, a line break and
      the guidelines joined by line breaks. */
  function Assemble(guidelines: seq<string>): (p: string)
    ensures BasePrompt <= p
    ensures p == BasePrompt <==> guidelines == []
  {
    if guidelines != [] then
      var p := BasePrompt + "\n" + JoinLines(guidelines);
      assert |p| > |BasePrompt| && p[..|BasePrompt|] == BasePrompt;
      p
    else BasePrompt
  }

  /** The system instruction for a selection. */
  function GetSystemPrompt(selected: seq<string>): (p: string)
    ensures BasePrompt <= p
    ensures p == BasePrompt <==> forall k: GuidelineKind :: Key(k) !in selected
  {
    var kinds := Selected(selected);
    assert kinds != [] ==> Key(kinds[0]) in selected;
    Assemble(Blocks(kinds))
  }

  /** Each block preceded by a line break, concatenated: the shape of what
      follows the base prompt. */
  function Sections(ks: seq<GuidelineKind>): string
  {
    if ks == [] then "" else "\n" + Block(ks[0]) + Sections(ks[1..])
  }

  lemma {:induction false} JoinedBlocksAreSections(ks: seq<GuidelineKind>)
    requires ks != []
    ensures "\n" + JoinLines(Blocks(ks)) == Sections(ks)
  {
    if |ks| > 1 {
      JoinedBlocksAreSections(ks[1..]);
      assert Blocks(ks)[1..] == Blocks(ks[1..]);
    }
  }

  /** The prompt is the base prompt followed by one section per selected
      kind, in the fixed order. */
  lemma PromptLayout(selected: seq<string>)
    ensures GetSystemPrompt(selected) == BasePrompt + Sections(Selected(selected))
  {
    AssembleLayout(Selected(selected));
  }

  lemma AssembleLayout(ks: seq<GuidelineKind>)
    ensures Assemble(Blocks(ks)) == BasePrompt + Sections(ks)
  {
    if ks != [] {
      JoinAfter(BasePrompt, ks);
    }
  }

  lemma JoinAfter(base: string, ks: seq<GuidelineKind>)
    requires ks != []
    ensures base + "\n" + JoinLines(Blocks(ks)) == base + Sections(ks)
  {
    JoinedBlocksAreSections(ks);
    var j := JoinLines(Blocks(ks));
    assert base + "\n" + j == base + ("\n" + j);
  }

  /** Reads back which guideline kinds a prompt carries, trying the kinds in
      the fixed order; `None` when the text is not a prompt of this shape. */
  function DecodeGuidelines(p: string): Option<seq<GuidelineKind>>
  {
    if BasePrompt <= p then DecodeSections(p[|BasePrompt|..], Kinds) else None
  }

  function DecodeSections(rest: string, candidates: seq<GuidelineKind>): Option<seq<GuidelineKind>>
    decreases |candidates|
  {
    if rest == [] then Some([])
    else if candidates == [] then None
    else
      var section := "\n" + Block(candidates[0]);
      if section <= rest then
        match DecodeSections(rest[|section|..], candidates[1..])
        case Some(ks) => Some([candidates[0]] + ks)
        case None => None
      else DecodeSections(rest, candidates[1..])
  }

  /** The character that tells the sections apart: the first one after the
      opening bracket of the block's heading. */
  function Marker(k: GuidelineKind): char
  {
    match k
    case Penalties => '裁'
    case LawInterpretations => '法'
    case Announcements => '重'
  }

  lemma SectionMarker(k: GuidelineKind)
    ensures |"\n" + Block(k)| > 3 && ("\n" + Block(k))[3] == Marker(k)
  {
    match k
    case Penalties => assert PenaltiesBlock[2] == '裁';
    case LawInterpretations => assert LawInterpretationsBlock[2] == '法';
    case Announcements => assert AnnouncementsBlock[2] == '重';
  }

  /** A section of one kind never begins the sections of another kind. */
  lemma SectionsDiffer(a: GuidelineKind, b: GuidelineKind, tail: string)
    requires a != b
    ensures !("\n" + Block(a) <= "\n" + Block(b) + tail)
  {
    var s, t := "\n" + Block(a), "\n" + Block(b) + tail;
    SectionMarker(a);
    SectionMarker(b);
    assert t[3] == ("\n" + Block(b))[3];
    assert s[3] != t[3];
  }

  lemma {:induction false} DecodeSectionsInverse(ks: seq<GuidelineKind>, n: nat)
    requires n <= 3
    requires forall i :: 0 <= i < |ks| ==> n <= Rank(ks[i])
    requires forall i, j :: 0 <= i < j < |ks| ==> Rank(ks[i]) < Rank(ks[j])
    ensures DecodeSections(Sections(ks), Kinds[n..]) == Some(ks)
    decreases 3 - n
  {
    if ks != [] {
      assert n < 3 by { assert n <= Rank(ks[0]) <= 2; }
      var c := Kinds[n];
      assert Kinds[n..][0] == c && Kinds[n..][1..] == Kinds[n + 1..];
      var section := "\n" + Block(c);
      if ks[0] == c {
        assert Sections(ks) == section + Sections(ks[1..]);
        assert section <= Sections(ks);
        assert Sections(ks)[|section|..] == Sections(ks[1..]);
        DecodeSectionsInverse(ks[1..], n + 1);
        assert DecodeSections(Sections(ks[1..]), Kinds[n + 1..]) == Some(ks[1..]);
        assert Sections(ks) != [];
        assert DecodeSections(Sections(ks), Kinds[n..]) == Some([c] + ks[1..]);
        assert [c] + ks[1..] == ks;
      } else {
        SectionsDiffer(c, ks[0], Sections(ks[1..]));
        assert Sections(ks) == "\n" + Block(ks[0]) + Sections(ks[1..]);
        DecodeSectionsInverse(ks, n + 1);
      }
    }
  }

  /** Round trip: the prompt carries exactly the blocks of the selected
      recognised keys, so they can be read back from it in order. */
  lemma DecodeGetSystemPrompt(selected: seq<string>)
    ensures DecodeGuidelines(GetSystemPrompt(selected)) == Some(Selected(selected))
  {
    var ks := Selected(selected);
    PromptLayout(selected);
    var p := GetSystemPrompt(selected);
    assert p[|BasePrompt|..] == Sections(ks);
    DecodeSectionsInverse(ks, 0);
  }

  /** Two selections give the same prompt exactly when they agree on which of
      the three recognised keys they contain; order, duplicates and unknown
      keys make no difference. */
  lemma SamePromptIffSameRecognisedKeys(a: seq<string>, b: seq<string>)
    ensures GetSystemPrompt(a) == GetSystemPrompt(b) <==>
      forall k: GuidelineKind :: Key(k) in a <==> Key(k) in b
  {
    if GetSystemPrompt(a) == GetSystemPrompt(b) {
      DecodeGetSystemPrompt(a);
      DecodeGetSystemPrompt(b);
      assert Selected(a) == Selected(b);
    }
    if forall k: GuidelineKind :: Key(k) in a <==> Key(k) in b {
      assert (Stores.PenaltiesKey in a <==> Stores.PenaltiesKey in b) by { assert Key(Penalties) == Stores.PenaltiesKey; }
      assert (Stores.LawInterpretationsKey in a <==> Stores.LawInterpretationsKey in b) by { assert Key(LawInterpretations) == Stores.LawInterpretationsKey; }
      assert (Stores.AnnouncementsKey in a <==> Stores.AnnouncementsKey in b) by { assert Key(Announcements) == Stores.AnnouncementsKey; }
      assert Selected(a) == Selected(b);
    }
  }

  /** A key that is none of the three recognised keys leaves the prompt
      unchanged wherever it is added. */
  lemma UnknownKeyIgnored(before: seq<string>, key: string, after: seq<string>)
    requires forall k: GuidelineKind :: key != Key(k)
    ensures GetSystemPrompt(before + [key] + after) == GetSystemPrompt(before + after)
  {
    SamePromptIffSameRecognisedKeys(before + [key] + after, before + after);
  }
}
