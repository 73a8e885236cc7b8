/**
 * The prompt composer of backend/prompts.py: a fixed base policy plus one
 * of four mode overlays, with unknown modes falling back to "General".
 */
module Prompts {

  const BaseSystemPrompt: string :=
    "\nYou are OrgBrain, an AI knowledge base agent for an organization.\n\nInstructions:\n"
    + "- Always answer strictly based on the provided documents.\n"
    + "- If the answer is not in the documents, say you are not sure and suggest contacting a human.\n"
    + "- Prefer concise, clear responses with headings and bullet points.\n"
    + "- At the end of each answer, include a 'Sources:' section listing relevant documents.\n"

  const GeneralOverlay: string :=
    "\nYou answer any question based on the documents.\nIf the user is vague, you may ask for clarification.\n"

  const HROverlay: string :=
    "\nYou act as an HR assistant focused on:\n- company policies\n- leave & benefits\n- attendance\n"
    + "- onboarding\nUse a professional and friendly tone.\n"

  const SupportOverlay: string :=
    "\nYou act as a support assistant focused on:\n- FAQs\n- troubleshooting\n- common issues\n"
    + "You should be empathetic and solution-oriented.\n"

  const OperationsOverlay: string :=
    "\nYou act as an operations assistant focused on:\n- SOPs\n- internal processes\n"
    + "- checklists and workflows\nYou should be structured and precise.\n"

  /** The `MODE_PROMPTS` table. */
  const ModePrompts: map<string, string> :=
    map["General" := GeneralOverlay, "HR" := HROverlay,
        "Support" := SupportOverlay, "Operations" := OperationsOverlay]

  /** The text placed between the base policy and the overlay. */
  const ModeHeader: string := "\n\nMode:\n"

  /** The table's key the lookup uses for `mode`: `mode` itself when recognized, "General" otherwise. */
  function EffectiveMode(mode: string): (m: string)
    ensures m in ModePrompts
    ensures mode in ModePrompts ==> m == mode
    ensures mode !in ModePrompts ==> m == "General"
  {
    if mode in ModePrompts then mode else "General"
  }

  /** `build_system_prompt`: the base policy, the mode header and the overlay of the effective mode. */
  function BuildSystemPrompt(mode: string): (p: string)
    ensures BaseSystemPrompt <= p
    ensures EndsWith(p, ModePrompts[EffectiveMode(mode)])
  {
    var overlay := if mode in ModePrompts then ModePrompts[mode] else ModePrompts["General"];
    assert overlay == ModePrompts[EffectiveMode(mode)];
    var p := BaseSystemPrompt + ModeHeader + overlay;
    assert p[..|BaseSystemPrompt|] == BaseSystemPrompt;
    assert p[|p| - |overlay|..] == overlay;
    p
  }

  predicate EndsWith(s: string, t: string)
  {
    |t| <= |s| && s[|s| - |t|..] == t
  }

  /** The table has exactly the four modes, so the "General" fallback lookup cannot fail. */
  lemma ModeTableShape()
    ensures ModePrompts.Keys == {"General", "HR", "Support", "Operations"}
    ensures |ModePrompts| == 4
    ensures "General" in ModePrompts
  {
    assert "General" != "HR" && "General" != "Support" && "General" != "Operations";
    assert "HR" != "Support" && "HR" != "Operations" && "Support" != "Operations";
  }

  /** An unrecognized mode composes the same prompt as "General". */
  lemma UnknownModeIsGeneral(mode: string)
    requires mode !in ModePrompts
    ensures BuildSystemPrompt(mode) == BuildSystemPrompt("General")
  {
  }

  /** A recognized mode composes the base policy, the header and that mode's own overlay. */
  lemma KnownModeComposition(mode: string)
    requires mode in ModePrompts
    ensures BuildSystemPrompt(mode) == BaseSystemPrompt + ModeHeader + ModePrompts[mode]
  {
  }

  /** Two strings that end with `a` and with `b` agree on the fourth character from the end of each. */
  lemma EndsWithSameTail(s: string, a: string, b: string)
    requires |a| >= 4 && |b| >= 4
    requires EndsWith(s, a) && EndsWith(s, b)
    ensures a[|a| - 4] == b[|b| - 4]
  {
    assert a[|a| - 4] == s[|s| - 4];
    assert b[|b| - 4] == s[|s| - 4];
  }

  /** The overlays are told apart by their fourth character from the end. */
  function TailMark(overlay: string): char
    requires |overlay| >= 4
  {
    overlay[|overlay| - 4]
  }

  /** The four overlays have four different tail marks. */
  lemma TailMarkInjective(a: string, b: string)
    requires a in ModePrompts && b in ModePrompts
    requires TailMark(ModePrompts[a]) == TailMark(ModePrompts[b])
    ensures a == b
  {
    assert TailMark(GeneralOverlay) == 'o';
    assert TailMark(HROverlay) == 'n';
    assert TailMark(SupportOverlay) == 'e';
    assert TailMark(OperationsOverlay) == 's';
  }

  /** Every composed prompt ends with the overlay of its effective mode and with no other overlay. */
  lemma EndsWithExactlyOneOverlay(mode: string, other: string)
    requires other in ModePrompts
    ensures EndsWith(BuildSystemPrompt(mode), ModePrompts[other]) <==> other == EffectiveMode(mode)
  {
    var p := BuildSystemPrompt(mode);
    var own := ModePrompts[EffectiveMode(mode)];
    var theirs := ModePrompts[other];
    if EndsWith(p, theirs) {
      assert |own| >= 4 && |theirs| >= 4;
      EndsWithSameTail(p, own, theirs);
      TailMarkInjective(EffectiveMode(mode), other);
    }
  }

  /** Distinct recognized modes compose distinct prompts. */
  lemma DistinctModesDistinctPrompts(m1: string, m2: string)
    requires m1 in ModePrompts && m2 in ModePrompts && m1 != m2
    ensures BuildSystemPrompt(m1) != BuildSystemPrompt(m2)
  {
    EndsWithExactlyOneOverlay(m1, m2);
  }
}
