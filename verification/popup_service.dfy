/** `PopupService`: the dialog the application shows, with its defaults and the shorthand
    kinds of dialog. Showing it and waiting for the answer are not modelled; only the
    dialog's contents are. */
module PopupService {
  import opened Wrappers

  datatype Icon = Success | Error | Warning | Info | Question

  /** A button's value (`true`, `false`, or a text). */
  datatype Value = Flag(b: bool) | Word(s: string)

  datatype Button = Button(text: string, value: Value, kind: string)

  /** What a caller asks for; `icon` and `buttons` may be left out. */
  datatype Options = Options(title: string, message: string, icon: Option<Icon>, buttons: Option<seq<Button>>)

  /** The dialog shown. */
  datatype Popup = Popup(title: string, message: string, icon: Icon, buttons: seq<Button>)

  const Aceptar: Button := Button("Aceptar", Flag(true), "primary")

  /** `open`: the title and message as given; the icon defaults to 'info' and the buttons
      to a single primary 'Aceptar' answering `true`. A given list of buttons, even an
      empty one, is kept. */
  function Open(o: Options): (p: Popup)
    ensures p.title == o.title && p.message == o.message
    ensures o.icon.Some? ==> p.icon == o.icon.value
    ensures o.icon.None? ==> p.icon == Info
    ensures o.buttons.Some? ==> p.buttons == o.buttons.value
    ensures o.buttons.None? ==> p.buttons == [Aceptar]
  {
    Popup(o.title, o.message, o.icon.GetOr(Info), o.buttons.GetOr([Aceptar]))
  }

  /** The shorthands `success`, `error`, `warning` and `info`: their icon and the single
      'Aceptar' button. */
  function Shorthand(icon: Icon, title: string, message: string): (p: Popup)
    requires icon != Question
    ensures p == Popup(title, message, icon, [Aceptar])
  {
    Open(Options(title, message, Some(icon), None))
  }

  const Si: Button := Button("Si", Flag(true), "primary")
  const No: Button := Button("No", Flag(false), "secondary")

  /** `confirm`: a question, answered 'Si' (`true`) or 'No' (`false`) unless other buttons
      are given. */
  function Confirm(title: string, message: string, buttons: Option<seq<Button>>): (p: Popup)
    ensures p.icon == Question && p.title == title && p.message == message
    ensures buttons.None? ==> p.buttons == [Si, No]
    ensures buttons.Some? ==> p.buttons == buttons.value
  {
    Open(Options(title, message, Some(Question), Some(buttons.GetOr([Si, No]))))
  }

  /** `confirmThree`: a question with exactly the three buttons given, in order. */
  function ConfirmThree(title: string, message: string, b1: Button, b2: Button, b3: Button): (p: Popup)
    ensures p.icon == Question && p.title == title && p.message == message
    ensures |p.buttons| == 3 && p.buttons[0] == b1 && p.buttons[1] == b2 && p.buttons[2] == b3
  {
    Open(Options(title, message, Some(Question), Some([b1, b2, b3])))
  }

  /** Every dialog has at least one button unless the caller gave an empty list: the
      defaults never leave the user without an answer. */
  lemma DefaultsOfferAnAnswer(o: Options)
    requires o.buttons != Some([])
    ensures |Open(o).buttons| >= 1
  {
  }

  /** The default confirmation tells its two answers apart. */
  lemma ConfirmAnswersDiffer(title: string, message: string)
    ensures var p := Confirm(title, message, None);
            p.buttons[0].value != p.buttons[1].value && p.buttons[0].text != p.buttons[1].text
  {
  }
}
