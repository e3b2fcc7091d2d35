/**
  The handler of the "Sonucu Göster ve Kaydet" button: check the identity,
  enforce the participation limit, classify the answers and append one row
  to the response file.

  `Respond` states what one press of the button does to the file and what
  the participant is shown; `Submit` computes the same thing step by step,
  as the handler does. The lemmas after them state the workflow's promises:
  a rejected submission writes nothing, an accepted one appends exactly one
  row and raises its token's count by one, and no token ever gets past
  `MaxKatilim` rows.
 */
module Submission {
  import opened Wrappers
  import opened Identity
  import opened Scoring
  import opened Store

  /** At most this many submissions are accepted under one identity. */
  const MaxKatilim: nat := 2

  /** The values of the form's fields when the button is pressed. */
  datatype Form = Form(
    kimlik: string,
    cinsiyet: string,
    yas: string,
    bolum: string,
    anneOkuryazar: string,
    babaOkuryazar: string,
    ekranSuresi: string,
    bildirimSayisi: string,
    bildirimTuru: string,
    cihaz: string)

  /** Why a submission was turned away. */
  datatype Rejection = MissingIdentity | LimitReached

  /** What the participant is shown. */
  datatype Outcome = Rejected(reason: Rejection) | Saved(level: Level, average: real)

  /** The outcome and the response file afterwards. */
  datatype Response = Response(outcome: Outcome, file: Option<Table>)

  /** The demographic and usage columns, recorded verbatim from the form. */
  function FormCells(form: Form): Row
  {
    map[
      GenderColumn := Text(form.cinsiyet),
      "Ya\U{15F}" := Text(form.yas),
      "B\U{F6}l\U{FC}m" := Text(form.bolum),
      "Anne Okuryazarl\U{131}\U{11F}\U{131}" := Text(form.anneOkuryazar),
      "Baba Okuryazarl\U{131}\U{11F}\U{131}" := Text(form.babaOkuryazar),
      "Ekran S\U{FC}resi" := Text(form.ekranSuresi),
      "Bildirim Say\U{131}s\U{131}" := Text(form.bildirimSayisi),
      "Bildirim T\U{FC}r\U{FC}" := Text(form.bildirimTuru),
      "Cihaz" := Text(form.cihaz)
    ]
  }

  /** The row's fourteen fixed columns, the `data` dictionary before the
      item scores are added: the time stamp, the identity and its token, the
      form's answers, the average and the level. */
  function FixedCells(form: Form, tarih: string, token: string, average: real, level: Level): Row
  {
    FormCells(form) + map[
      "Tarih" := Text(tarih),
      "Kimlik" := Text(form.kimlik),
      HashColumn := Text(token),
      MeanColumn := Number(average),
      "D\U{FC}zey" := Text(level.Label())
    ]
  }

  /** The names of the row's fourteen fixed columns, listed in `data`'s order. */
  const FixedColumns: set<string> := {
    "Tarih", "Kimlik", HashColumn, GenderColumn, "Ya\U{15F}", "B\U{F6}l\U{FC}m",
    "Anne Okuryazarl\U{131}\U{11F}\U{131}", "Baba Okuryazarl\U{131}\U{11F}\U{131}",
    "Ekran S\U{FC}resi", "Bildirim Say\U{131}s\U{131}", "Bildirim T\U{FC}r\U{FC}", "Cihaz",
    MeanColumn, "D\U{FC}zey"
  }

  /** Every column of an appended row: the fixed ones and S1..S12. */
  const RowColumns: set<string> := FixedColumns + set k | k in Codes

  /** The score dictionaries the form builds: one answer per question code
      and no other key, as `CollectScores` produces. */
  predicate IsScoreDict(puanlar: map<string, int>)
  {
    && (forall k :: k in Codes ==> k in puanlar)
    && (forall k :: k in puanlar ==> k in Codes)
  }

  /** The item columns named in `codes`, each holding its answer. */
  function ItemCellsOf(puanlar: map<string, int>, codes: seq<string>): Row
    requires forall k :: k in codes ==> k in puanlar
  {
    map k | k in codes :: Integer(puanlar[k])
  }

  /** The item columns S1..S12. */
  function ItemCells(puanlar: map<string, int>): Row
    requires IsScoreDict(puanlar)
  {
    ItemCellsOf(puanlar, Codes)
  }

  /** The row an accepted submission appends. */
  function NewRow(form: Form, tarih: string, token: string, puanlar: map<string, int>): (row: Row)
    requires IsScoreDict(puanlar)
    ensures "Tarih" in row
  {
    var average := Average(AnswerList(puanlar));
    FixedCells(form, tarih, token, average, Classify(average)) + ItemCells(puanlar)
  }

  /** One press of the button: the file as it is read, the form fields, the
      `puanlar` dictionary and the time stamp. */
  function Respond(file: Option<Table>, form: Form, puanlar: map<string, int>, tarih: string,
                   digest: string -> string): (r: Response)
    requires WellFormedFile(file) && IsScoreDict(puanlar)
    ensures WellFormedFile(r.file)
    ensures r.outcome.Rejected? ==> r.file == file
    ensures r.outcome.Saved? ==>
              r.file.Some? &&
              r.file.value.rows == Load(file).rows + [NewRow(form, tarih, Token(digest, form.kimlik), puanlar)]
  {
    if form.kimlik == [] then Response(Rejected(MissingIdentity), file)
    else
      var token := Token(digest, form.kimlik);
      var existing := Load(file);
      if PriorCount(existing, token) >= MaxKatilim then Response(Rejected(LimitReached), file)
      else
        var average := Average(AnswerList(puanlar));
        Response(Saved(Classify(average), average),
                 Some(Append(existing, NewRow(form, tarih, token, puanlar))))
  }

  /** Adding one more code to the item columns is one more map update. */
  lemma ItemCellsOfSnoc(data: Row, puanlar: map<string, int>, codes: seq<string>, k: string)
    requires forall c :: c in codes ==> c in puanlar
    requires k in puanlar
    ensures (data + ItemCellsOf(puanlar, codes))[k := Integer(puanlar[k])]
         == data + ItemCellsOf(puanlar, codes + [k])
  {
    var a := (data + ItemCellsOf(puanlar, codes))[k := Integer(puanlar[k])];
    var b := data + ItemCellsOf(puanlar, codes + [k]);
    assert forall c :: c in codes + [k] <==> c in codes || c == k;
    assert a.Keys == b.Keys;
  }

  /** The loop that copies `puanlar` into `data`, one question code at a
      time, in the order of `codes`. */
  method AddItemColumns(data: Row, puanlar: map<string, int>, codes: seq<string>) returns (row: Row)
    requires forall k :: k in codes ==> k in puanlar
    ensures row == data + ItemCellsOf(puanlar, codes)
  {
    row := data;
    for n := 0 to |codes|
      invariant row == data + ItemCellsOf(puanlar, codes[..n])
    {
      ItemCellsOfSnoc(data, puanlar, codes[..n], codes[n]);
      assert codes[..n] + [codes[n]] == codes[..n + 1];
      row := row[codes[n] := Integer(puanlar[codes[n]])];
    }
    assert codes[..|codes|] == codes;
  }

  /** The handler, step by step: the guards run in order, and the row is
      built field by field before it is appended to what was read. */
  method Submit(file: Option<Table>, form: Form, puanlar: map<string, int>, tarih: string,
                digest: string -> string) returns (r: Response)
    requires WellFormedFile(file) && IsScoreDict(puanlar)
    ensures r == Respond(file, form, puanlar, tarih, digest)
  {
    var ortalama := Average(AnswerList(puanlar));

    if form.kimlik == [] {
      return Response(Rejected(MissingIdentity), file);
    }
    var kimlikHash := Token(digest, form.kimlik);

    var dfExisting := Load(file);
    var onceki := PriorCount(dfExisting, kimlikHash);
    if onceki >= MaxKatilim {
      return Response(Rejected(LimitReached), file);
    }

    var duzey := Classify(ortalama);
    var data := FixedCells(form, tarih, kimlikHash, ortalama, duzey);
    data := AddItemColumns(data, puanlar, Codes);
    assert data == NewRow(form, tarih, kimlikHash, puanlar);

    var dfAll := Append(dfExisting, data);
    r := Response(Saved(duzey, ortalama), Some(dfAll));
  }

  /** The two guards, in both directions: a submission is turned away
      exactly when the identity is empty or its token already has
      `MaxKatilim` rows, and only then. */
  lemma RespondGuards(file: Option<Table>, form: Form, puanlar: map<string, int>, tarih: string,
                      digest: string -> string)
    requires WellFormedFile(file) && IsScoreDict(puanlar)
    ensures var r := Respond(file, form, puanlar, tarih, digest);
            var prior := PriorCount(Load(file), Token(digest, form.kimlik));
            && (r.outcome == Rejected(MissingIdentity) <==> form.kimlik == [])
            && (r.outcome == Rejected(LimitReached) <==> form.kimlik != [] && prior >= MaxKatilim)
            && (r.outcome.Saved? <==> form.kimlik != [] && prior < MaxKatilim)
  {
  }

  /** What a saved submission shows: the average of the twelve answers,
      within 1..5 for slider answers, and its level, which is the level of
      the integer score sum. */
  lemma SavedResult(file: Option<Table>, form: Form, puanlar: map<string, int>, tarih: string,
                    digest: string -> string)
    requires WellFormedFile(file) && IsScoreDict(puanlar)
    ensures var r := Respond(file, form, puanlar, tarih, digest);
            var answers := AnswerList(puanlar);
            r.outcome.Saved? ==>
              && r.outcome.average == Sum(answers) as real / 12.0
              && r.outcome.level == Classify(r.outcome.average)
              && r.outcome.level == LevelOfScoreSum(Sum(answers))
              && (InRange(answers) ==> 1.0 <= r.outcome.average <= 5.0)
  {
    var answers := AnswerList(puanlar);
    SavedOutcome(file, form, puanlar, tarih, digest);
    LevelMatchesScoreSum(answers);
    if InRange(answers) {
      AverageBounds(answers);
    }
  }

  /** A saved submission shows the average of its answers and the level
      classified from it. */
  lemma SavedOutcome(file: Option<Table>, form: Form, puanlar: map<string, int>, tarih: string,
                     digest: string -> string)
    requires WellFormedFile(file) && IsScoreDict(puanlar)
    ensures var r := Respond(file, form, puanlar, tarih, digest);
            var average := Average(AnswerList(puanlar));
            r.outcome.Saved? ==> r.outcome == Saved(Classify(average), average)
  {
  }

  /** An empty identity is turned away before it is hashed: the response
      does not depend on the digest. */
  lemma EmptyIdentityIgnoresDigest(file: Option<Table>, form: Form, puanlar: map<string, int>,
                                   tarih: string, d1: string -> string, d2: string -> string)
    requires WellFormedFile(file) && IsScoreDict(puanlar)
    requires form.kimlik == []
    ensures Respond(file, form, puanlar, tarih, d1) == Respond(file, form, puanlar, tarih, d2)
    ensures Respond(file, form, puanlar, tarih, d1) == Response(Rejected(MissingIdentity), file)
  {
  }

  /** The identity check tests only for the empty string: an identity made
      of whitespace alone passes it, is hashed as the empty string, and is
      saved under that token with the raw whitespace in the Kimlik column. */
  lemma WhitespaceIdentityAccepted(file: Option<Table>, form: Form, puanlar: map<string, int>,
                                   tarih: string, digest: string -> string)
    requires WellFormedFile(file) && IsScoreDict(puanlar)
    requires form.kimlik != [] && AllSpace(form.kimlik)
    requires PriorCount(Load(file), digest([])) < MaxKatilim
    ensures var r := Respond(file, form, puanlar, tarih, digest);
            && r.outcome.Saved?
            && r.file.Some?
            && r.file.value.rows == Load(file).rows + [NewRow(form, tarih, digest([]), puanlar)]
  {
    WhitespaceIdentityHashesEmpty(digest, form.kimlik);
  }

  /** A column name that does not start with S is not a question code, so
      the item columns never overwrite it. */
  lemma NotAnItemColumn(puanlar: map<string, int>, k: string)
    requires IsScoreDict(puanlar)
    requires |k| > 0 && k[0] != 'S'
    ensures k !in ItemCells(puanlar)
  {
  }

  /** The appended row holds the raw identity and its token. */
  lemma NewRowIdentity(form: Form, tarih: string, token: string, puanlar: map<string, int>)
    requires IsScoreDict(puanlar)
    ensures var row := NewRow(form, tarih, token, puanlar);
            && "Kimlik" in row && row["Kimlik"] == Text(form.kimlik)
            && HashColumn in row && row[HashColumn] == Text(token)
  {
    var average := Average(AnswerList(puanlar));
    var fixed := FixedCells(form, tarih, token, average, Classify(average));
    assert NewRow(form, tarih, token, puanlar) == fixed + ItemCells(puanlar);
    NotAnItemColumn(puanlar, "Kimlik");
    NotAnItemColumn(puanlar, HashColumn);
    assert fixed["Kimlik"] == Text(form.kimlik) && fixed[HashColumn] == Text(token);
  }

  /** The appended row holds the time stamp, and each of the form's nine
      answers unchanged under its own column (`FormCells`); in particular
      the gender that the admin panel tallies. */
  lemma NewRowForm(form: Form, tarih: string, token: string, puanlar: map<string, int>)
    requires IsScoreDict(puanlar)
    ensures var row := NewRow(form, tarih, token, puanlar);
            && "Tarih" in row && row["Tarih"] == Text(tarih)
            && (forall k :: k in FormCells(form) ==> k in row && row[k] == FormCells(form)[k])
            && GenderColumn in row && row[GenderColumn] == Text(form.cinsiyet)
  {
    var average := Average(AnswerList(puanlar));
    assert NewRow(form, tarih, token, puanlar)
        == FixedCells(form, tarih, token, average, Classify(average)) + ItemCells(puanlar);
    ItemsKeepFormCells(form, tarih, token, average, Classify(average), puanlar);
    assert GenderColumn in FormCells(form);
  }

  /** `data` with the item columns added still holds the time stamp and
      every form cell, whatever the average and level. */
  lemma ItemsKeepFormCells(form: Form, tarih: string, token: string, average: real, level: Level,
                           puanlar: map<string, int>)
    requires IsScoreDict(puanlar)
    ensures var m := FixedCells(form, tarih, token, average, level) + ItemCells(puanlar);
            && "Tarih" in m && m["Tarih"] == Text(tarih)
            && (forall k :: k in FormCells(form) ==> k in m && m[k] == FormCells(form)[k])
  {
    var fixed := FixedCells(form, tarih, token, average, level);
    assert fixed["Tarih"] == Text(tarih);
    ItemsKeepFixedCell(fixed, puanlar, "Tarih");
    forall k | k in FormCells(form)
      ensures k in fixed + ItemCells(puanlar) && (fixed + ItemCells(puanlar))[k] == FormCells(form)[k]
    {
      FormCellInFixedCells(form, tarih, token, average, level, k);
      ItemsKeepFixedCell(fixed, puanlar, k);
    }
  }

  /** Adding the item columns leaves a fixed cell whose name does not start
      with S as it was. */
  lemma ItemsKeepFixedCell(fixed: Row, puanlar: map<string, int>, k: string)
    requires IsScoreDict(puanlar)
    requires k in fixed && |k| > 0 && k[0] != 'S'
    ensures k in fixed + ItemCells(puanlar) && (fixed + ItemCells(puanlar))[k] == fixed[k]
  {
    NotAnItemColumn(puanlar, k);
  }

  /** Each form cell is in `data` unchanged, under a name that does not
      start with S. */
  lemma FormCellInFixedCells(form: Form, tarih: string, token: string, average: real, level: Level,
                             k: string)
    requires k in FormCells(form)
    ensures var fixed := FixedCells(form, tarih, token, average, level);
            && |k| > 0 && k[0] != 'S'
            && k in fixed && fixed[k] == FormCells(form)[k]
  {
  }

  /** The `data` dictionary has exactly the fourteen fixed columns. */
  lemma FixedCellsColumns(form: Form, tarih: string, token: string, average: real, level: Level)
    ensures FixedCells(form, tarih, token, average, level).Keys == FixedColumns
  {
  }

  /** The appended row has exactly the fourteen fixed columns and the twelve
      item columns. */
  lemma NewRowColumns(form: Form, tarih: string, token: string, puanlar: map<string, int>)
    requires IsScoreDict(puanlar)
    ensures NewRow(form, tarih, token, puanlar).Keys == RowColumns
  {
    var average := Average(AnswerList(puanlar));
    var fixed := FixedCells(form, tarih, token, average, Classify(average));
    assert NewRow(form, tarih, token, puanlar) == fixed + ItemCells(puanlar);
    FixedCellsColumns(form, tarih, token, average, Classify(average));
    assert ItemCells(puanlar).Keys == set k | k in Codes;
  }

  /** The appended row holds each item's answer under its code. */
  lemma NewRowItems(form: Form, tarih: string, token: string, puanlar: map<string, int>)
    requires IsScoreDict(puanlar)
    ensures var row := NewRow(form, tarih, token, puanlar);
            forall i :: 0 <= i < |Codes| ==> Codes[i] in row && row[Codes[i]] == Integer(puanlar[Codes[i]])
  {
  }

  /** The appended row holds the average of the twelve answers and the
      level classified from it (see `AverageBounds` and
      `LevelMatchesScoreSum` for what these are on slider answers). */
  lemma NewRowScore(form: Form, tarih: string, token: string, puanlar: map<string, int>)
    requires IsScoreDict(puanlar)
    ensures var row := NewRow(form, tarih, token, puanlar);
            var average := Average(AnswerList(puanlar));
            && MeanColumn in row && row[MeanColumn] == Number(average)
            && "D\U{FC}zey" in row && row["D\U{FC}zey"] == Text(Classify(average).Label())
  {
    var average := Average(AnswerList(puanlar));
    var fixed := FixedCells(form, tarih, token, average, Classify(average));
    assert NewRow(form, tarih, token, puanlar) == fixed + ItemCells(puanlar);
    NotAnItemColumn(puanlar, MeanColumn);
    NotAnItemColumn(puanlar, "D\U{FC}zey");
  }

  /** No token has more than `MaxKatilim` rows. */
  ghost predicate WithinLimit(t: Table)
  {
    forall token :: PriorCount(t, token) <= MaxKatilim
  }

  /** An accepted submission raises the count of its own token by exactly
      one and leaves every other token's count unchanged; a rejected one
      changes no count. */
  lemma RespondCounts(file: Option<Table>, form: Form, puanlar: map<string, int>, tarih: string,
                      digest: string -> string, token: string)
    requires WellFormedFile(file) && IsScoreDict(puanlar)
    ensures var r := Respond(file, form, puanlar, tarih, digest);
            PriorCount(Load(r.file), token) == PriorCount(Load(file), token)
              + (if r.outcome.Saved? && token == Token(digest, form.kimlik) then 1 else 0)
  {
    var r := Respond(file, form, puanlar, tarih, digest);
    if r.outcome.Saved? {
      var own := Token(digest, form.kimlik);
      var row := NewRow(form, tarih, own, puanlar);
      NewRowIdentity(form, tarih, own, puanlar);
      AppendCount(Load(file), row, token);
    }
  }

  /** If one token's count rises by one from below the limit and every
      other count stays put, the limit still holds. */
  lemma LimitStep(before: Table, after: Table, own: string, saved: bool)
    requires WithinLimit(before)
    requires saved ==> PriorCount(before, own) < MaxKatilim
    requires forall t :: PriorCount(after, t) == PriorCount(before, t) + (if saved && t == own then 1 else 0)
    ensures WithinLimit(after)
  {
  }

  /** The participation limit is an invariant of the store. */
  lemma RespondPreservesLimit(file: Option<Table>, form: Form, puanlar: map<string, int>,
                              tarih: string, digest: string -> string)
    requires WellFormedFile(file) && IsScoreDict(puanlar)
    requires WithinLimit(Load(file))
    ensures WithinLimit(Load(Respond(file, form, puanlar, tarih, digest).file))
  {
    var r := Respond(file, form, puanlar, tarih, digest);
    var own := Token(digest, form.kimlik);
    forall t
      ensures PriorCount(Load(r.file), t) == PriorCount(Load(file), t) + (if r.outcome.Saved? && t == own then 1 else 0)
    {
      RespondCounts(file, form, puanlar, tarih, digest, t);
    }
    RespondGuards(file, form, puanlar, tarih, digest);
    LimitStep(Load(file), Load(r.file), own, r.outcome.Saved?);
  }

  /** The file gains one row when the submission is saved and none when
      it is turned away; the rows already there keep their place. */
  lemma RespondGrowth(file: Option<Table>, form: Form, puanlar: map<string, int>,
                      tarih: string, digest: string -> string)
    requires WellFormedFile(file) && IsScoreDict(puanlar)
    ensures var r := Respond(file, form, puanlar, tarih, digest);
            && |Load(r.file).rows| == |Load(file).rows| + (if r.outcome.Saved? then 1 else 0)
            && Load(file).rows <= Load(r.file).rows
  {
  }

  /** After a saved submission the file has an Ortalama column, so the
      admin panel shows its full summary, counting the new row. */
  lemma SavedFileShowsSummary(file: Option<Table>, form: Form, puanlar: map<string, int>,
                              tarih: string, digest: string -> string)
    requires WellFormedFile(file) && IsScoreDict(puanlar)
    ensures var r := Respond(file, form, puanlar, tarih, digest);
            r.outcome.Saved? ==>
              && AdminSummary(r.file).Summary?
              && AdminSummary(r.file).participants == |Load(file).rows| + 1
  {
    var r := Respond(file, form, puanlar, tarih, digest);
    if r.outcome.Saved? {
      var row := NewRow(form, tarih, Token(digest, form.kimlik), puanlar);
      NewRowScore(form, tarih, Token(digest, form.kimlik), puanlar);
      assert r.file == Some(Append(Load(file), row));
      assert MeanColumn in r.file.value.columns;
    }
  }

  /** One press of the button with its inputs. */
  datatype Entry = Entry(form: Form, puanlar: map<string, int>, tarih: string)

  predicate AllComplete(entries: seq<Entry>)
  {
    forall i :: 0 <= i < |entries| ==> IsScoreDict(entries[i].puanlar)
  }

  /** The file after a sequence of submissions, and how many were saved. */
  datatype Trace = Trace(file: Option<Table>, saved: nat)

  function Run(file: Option<Table>, entries: seq<Entry>, digest: string -> string): Trace
    requires WellFormedFile(file) && AllComplete(entries)
    decreases |entries|
  {
    if entries == [] then Trace(file, 0)
    else
      var e := entries[0];
      var r := Respond(file, e.form, e.puanlar, e.tarih, digest);
      var rest := Run(r.file, entries[1..], digest);
      Trace(rest.file, rest.saved + (if r.outcome.Saved? then 1 else 0))
  }

  /** Starting from a store within the limit, any sequence of submissions
      leaves it within the limit, and the store grows by exactly the
      submissions that were saved; earlier rows keep their place. */
  lemma {:induction false} RunInvariant(file: Option<Table>, entries: seq<Entry>, digest: string -> string)
    requires WellFormedFile(file) && AllComplete(entries)
    requires WithinLimit(Load(file))
    ensures var t := Run(file, entries, digest);
            && WellFormedFile(t.file)
            && WithinLimit(Load(t.file))
            && |Load(t.file).rows| == |Load(file).rows| + t.saved
            && Load(file).rows <= Load(t.file).rows
    decreases |entries|
  {
    if entries != [] {
      var e := entries[0];
      var r := Respond(file, e.form, e.puanlar, e.tarih, digest);
      RespondPreservesLimit(file, e.form, e.puanlar, e.tarih, digest);
      RespondGrowth(file, e.form, e.puanlar, e.tarih, digest);
      RunInvariant(r.file, entries[1..], digest);
    }
  }

  /** From a missing file, no token ever reaches a third row. */
  lemma FreshStoreStaysWithinLimit(entries: seq<Entry>, digest: string -> string, token: string)
    requires AllComplete(entries)
    ensures PriorCount(Load(Run(None, entries, digest).file), token) <= MaxKatilim
  {
    RunInvariant(None, entries, digest);
  }

  /** A form whose twelve answers are all `c`. */
  function Uniform(c: int): (puanlar: map<string, int>)
    ensures IsScoreDict(puanlar)
  {
    map k | k in Codes :: c
  }

  /** Twelve equal answers average to that answer: all 1s are Düşük, all
      3s Orta and all 5s Yüksek. */
  lemma UniformAverage(c: int)
    ensures Average(AnswerList(Uniform(c))) == c as real
    ensures c == 1 ==> Classify(c as real) == Dusuk
    ensures c == 3 ==> Classify(c as real) == Orta
    ensures c == 5 ==> Classify(c as real) == Yuksek
  {
    SumOfConstant(AnswerList(Uniform(c)), c);
  }

  /** The same participant twice, then a third time: the first two
      submissions are saved, the third is turned away and writes nothing,
      even when each time the identity is spelt with different case or
      surrounding space. */
  lemma ThirdSubmissionRejected(form1: Form, form2: Form, form3: Form,
                                p1: map<string, int>, p2: map<string, int>, p3: map<string, int>,
                                tarih: string, digest: string -> string)
    requires IsScoreDict(p1) && IsScoreDict(p2) && IsScoreDict(p3)
    requires form1.kimlik != [] && form2.kimlik != [] && form3.kimlik != []
    requires Normalize(form2.kimlik) == Normalize(form1.kimlik)
    requires Normalize(form3.kimlik) == Normalize(form1.kimlik)
    ensures var first := Respond(None, form1, p1, tarih, digest);
            var second := Respond(first.file, form2, p2, tarih, digest);
            var third := Respond(second.file, form3, p3, tarih, digest);
            && first.outcome.Saved?
            && second.outcome.Saved?
            && third.outcome == Rejected(LimitReached)
            && third.file == second.file
            && |Load(second.file).rows| == 2
  {
    var token := Token(digest, form1.kimlik);
    var first := Respond(None, form1, p1, tarih, digest);
    RespondGuards(None, form1, p1, tarih, digest);
    RespondCounts(None, form1, p1, tarih, digest, token);
    RespondGrowth(None, form1, p1, tarih, digest);
    var second := Respond(first.file, form2, p2, tarih, digest);
    RespondGuards(first.file, form2, p2, tarih, digest);
    RespondCounts(first.file, form2, p2, tarih, digest, token);
    RespondGrowth(first.file, form2, p2, tarih, digest);
    RespondGuards(second.file, form3, p3, tarih, digest);
  }
}
