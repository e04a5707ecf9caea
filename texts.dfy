/**
 * The texts of the numbers: a text for a number and a context, chosen so
 * that the user does not see one again before all have been shown. The
 * loaded texts are a parameter, random choice a chooser index.
 */
module Texts {
  import opened Wrappers
  import opened Strings
  import opened Slices
  import SharedStorage
  import Dicts

  const Unavailable := "Информация временно недоступна."
  /** What the caught exception gives when there is nothing to choose from. */
  const Failure := "Произошла ошибка. Попробуйте позже."

  /**
   * The choice against the shown texts: an unseen option when there is
   * one; otherwise the history is emptied and any option chosen. Gives the
   * text and the new history. With no options at all the emptied history
   * stays and the failure text comes back.
   */
  function Choose(options: seq<string>, shown: seq<string>, pick: nat): (r: (string, seq<string>))
    ensures options == [] ==> r == (Failure, [])
    ensures options != [] ==> r.0 in options
    ensures options != [] && (exists t | t in options :: t !in shown) ==> r.0 !in shown && r.1 == shown + [r.0]
    ensures options != [] && (forall t | t in options :: t in shown) ==> r.1 == [r.0]
  {
    var unused := Unused(options, shown);
    if unused != [] then
      var text := Pick(unused, pick);
      (text, shown + [text])
    else if options == [] then (Failure, [])
    else
      var text := Pick(options, pick);
      assert forall t | t in options :: t in shown;
      (text, [text])
  }

  /** Nothing repeats while something is unseen: a text is only shown again after every option has been. */
  lemma ChooseFreshUntilExhausted(options: seq<string>, shown: seq<string>, pick: nat)
    requires options != []
    ensures var r := Choose(options, shown, pick);
            r.0 in shown <==> forall t | t in options :: t in shown
  {
    var r := Choose(options, shown, pick);
    if forall t | t in options :: t in shown {
      assert r.0 in shown;
    }
  }

  /**
   * The part of `get_text` after the history is read: the record is
   * already fetched, so fetching it again changes nothing but what is
   * written to its history.
   */
  method ChooseAndRecord(storage: SharedStorage.UserStorage, id: int, now: int, options: seq<string>,
                         shown: seq<string>, pick: nat) returns (text: string)
    requires id in storage.users && storage.users[id].textHistory == shown
    requires SharedStorage.Touch(storage.users[id], now, id in storage.admins) == storage.users[id]
    modifies storage
    ensures var r := Choose(options, shown, pick);
            text == r.0 && storage.users == old(storage.users)[id := old(storage.users)[id].(textHistory := r.1)]
  {
    ghost var u := storage.users[id];
    var unused := Unused(options, shown);
    if unused == [] {
      unused := options;
      storage.UpdateTextHistory(id, now, []);
      if options == [] {
        return Failure;
      }
      SharedStorage.TouchKeepsHistory(u, now, id in storage.admins, []);
      text := Pick(unused, pick);
      storage.AddTextToHistory(id, now, text);
      assert [] + [text] == [text];
      Dicts.UpdateTwice(old(storage.users), id, u.(textHistory := []), u.(textHistory := [text]));
    } else {
      text := Pick(unused, pick);
      storage.AddTextToHistory(id, now, text);
    }
  }

  /**
   * `get_text`: for a known number and context the choice is made against
   * the stored history, which is replaced by the new history.
   */
  method GetText(storage: SharedStorage.UserStorage, numberTexts: map<string, map<string, seq<string>>>,
                 number: int, context: string, id: int, now: int, pick: nat) returns (text: string)
    modifies storage
    ensures var key := IntToString(number);
            if key !in numberTexts || context !in numberTexts[key] then
              text == Unavailable && storage.users == old(storage.users)
            else
              var u := SharedStorage.Fetched(old(storage.users), id, now, id in storage.admins);
              var r := Choose(numberTexts[key][context], u.textHistory, pick);
              text == r.0 && storage.users == old(storage.users)[id := u.(textHistory := r.1)]
  {
    var key := IntToString(number);
    if key !in numberTexts || context !in numberTexts[key] {
      return Unavailable;
    }
    ghost var stored := if id in storage.users then storage.users[id] else SharedStorage.NewUser(now);
    SharedStorage.TouchIdempotent(stored, now, id in storage.admins);
    var shown := storage.GetTextHistory(id, now);
    text := ChooseAndRecord(storage, id, now, numberTexts[key][context], shown, pick);
  }
}
