/** The names and addresses the seed formats, and that they never collide. */
module SeedNames {
  import opened Domain
  import opened Tables
  import opened Text

  const DEMO_EMAILS := ["admin@demo.krane", "contributor@demo.krane", "attendee@demo.krane"]
  const DEMO_SUBJECTS := ["demo-admin", "demo-contributor", "demo-attendee"]
  const DEMO_NAMES := ["Demo Admin", "Demo Contributor", "Demo Attendee"]
  const DEMO_ROLES := [Admin, Contributor, Attendee]

  function DemoUser(i: nat): User
    requires i < 3
  {
    User(DEMO_SUBJECTS[i], DEMO_EMAILS[i], DEMO_NAMES[i])
  }

  function UserEmail(n: nat): string {
    "user" + Padded(n, 5) + "@seed.example"
  }

  function SeedUser(n: nat): User {
    User("seed-user-" + Padded(n, 5), UserEmail(n), "Seed User " + Padded(n, 5))
  }

  function Letter(k: nat): (c: char)
    requires k < 26
    ensures c as int == 'A' as int + k
  {
    ('A' as int + k) as char
  }

  function RoomName(k: nat): string {
    "Room " + if k < 26 then [Letter(k)] else Decimal(k + 1)
  }

  function ExternalEmail(eventSeq: nat, n: nat): string {
    "seed-ext-" + Decimal(eventSeq) + "-" + Decimal(n) + "@seed-external.example"
  }

  lemma RoomNamesDiffer(j: nat, k: nat)
    requires j != k
    ensures RoomName(j) != RoomName(k)
  {
    hide Decimal, Letter;
    if j < 26 && k < 26 {
      assert RoomName(j)[5] == Letter(j) && RoomName(k)[5] == Letter(k);
    } else if j >= 26 && k >= 26 {
      NumberedNamesDiffer("Room ", "", j + 1, k + 1);
      assert "Room " + Decimal(j + 1) + "" == RoomName(j) && "Room " + Decimal(k + 1) + "" == RoomName(k);
    } else if j < 26 {
      LetterIsNoNumber(j, k);
    } else {
      LetterIsNoNumber(k, j);
    }
  }

  lemma LetterIsNoNumber(letter: nat, number: nat)
    requires letter < 26 <= number
    ensures RoomName(letter) != RoomName(number)
  {
    hide Decimal, Letter;
    assert RoomName(letter)[5] == Letter(letter) && RoomName(number)[5] == Decimal(number + 1)[0];
  }

  lemma ExternalEmailsDiffer(eventSeq: nat, m: nat, n: nat)
    requires m != n
    ensures ExternalEmail(eventSeq, m) != ExternalEmail(eventSeq, n)
  {
    NumberedNamesDiffer("seed-ext-" + Decimal(eventSeq) + "-", "@seed-external.example", m, n);
  }

  /** No account has an address of the kind made up for outsiders. */
  predicate Internal(email: string) {
    email != [] && email[0] != 's'
  }

  lemma AccountsAreInternal(i: nat, n: nat, eventSeq: nat)
    requires i < 3
    ensures Internal(DEMO_EMAILS[i]) && Internal(UserEmail(n)) && !Internal(ExternalEmail(eventSeq, n))
    ensures DEMO_EMAILS[i] != UserEmail(n)
  {
    assert DEMO_EMAILS[i][0] != 'u' && UserEmail(n)[0] == 'u' && ExternalEmail(eventSeq, n)[0] == 's';
  }

  /** The account at position `i` of the generated list. */
  function Account(i: nat): User {
    if i < 3 then DemoUser(i) else SeedUser(i - 2)
  }

  lemma AccountIsInternal(i: nat, eventSeq: nat, n: nat)
    ensures Account(i).email != ExternalEmail(eventSeq, n)
  {
    AccountsAreInternal(if i < 3 then i else 0, n, eventSeq);
    AccountsAreInternal(0, if i < 3 then 0 else i - 2, eventSeq);
  }

  lemma AccountSubjectsDiffer(i: nat, j: nat)
    requires i != j
    ensures Account(i).subject != Account(j).subject
  {
    if i < 3 && j < 3 {
      assert DEMO_SUBJECTS[0][5] == 'a' && DEMO_SUBJECTS[1][5] == 'c' && DEMO_SUBJECTS[2][6] == 't' && DEMO_SUBJECTS[0][6] == 'd';
    } else if i >= 3 && j >= 3 {
      SeededNamesDiffer("seed-user-", "", i - 2, j - 2, 5);
      assert "seed-user-" + Padded(i - 2, 5) + "" == Account(i).subject;
      assert "seed-user-" + Padded(j - 2, 5) + "" == Account(j).subject;
    } else {
      var demo, seeded := if i < 3 then i else j, if i < 3 then j else i;
      assert Account(demo).subject[0] == 'd' && Account(seeded).subject[0] == 's';
    }
  }

  lemma AccountEmailsDiffer(i: nat, j: nat)
    requires i != j
    ensures Account(i).email != Account(j).email
  {
    if i < 3 && j < 3 {
      assert DEMO_EMAILS[0][1] == 'd' && DEMO_EMAILS[1][1] == 'o' && DEMO_EMAILS[2][1] == 't';
    } else if i >= 3 && j >= 3 {
      SeededNamesDiffer("user", "@seed.example", i - 2, j - 2, 5);
    } else if i < 3 {
      AccountsAreInternal(i, j - 2, 0);
    } else {
      AccountsAreInternal(j, i - 2, 0);
    }
  }

  /** The fixed identities. */
  lemma DemoAccounts()
    ensures Account(0) == User("demo-admin", "admin@demo.krane", "Demo Admin")
    ensures Account(1) == User("demo-contributor", "contributor@demo.krane", "Demo Contributor")
    ensures Account(2) == User("demo-attendee", "attendee@demo.krane", "Demo Attendee")
  {
  }

  /** How numbered accounts, rooms and addresses read. */
  lemma NumbersRead()
    ensures Account(3).subject == "seed-user-00001" && Account(3).email == "user00001@seed.example"
    ensures RoomName(0) == "Room A" && RoomName(25) == "Room Z" && RoomName(26) == "Room 27"
    ensures ExternalEmail(2, 7) == "seed-ext-2-7@seed-external.example"
  {
    hide Account, SeedUser, UserEmail, RoomName, ExternalEmail;
    FirstAccountReads();
    RoomsRead();
    AddressReads();
  }

  lemma FirstAccountReads()
    ensures Account(3).subject == "seed-user-00001" && Account(3).email == "user00001@seed.example"
  {
    assert Padded(1, 5) == "00001" by { assert Decimal(1) == "1"; assert Zeros(4) == "0000"; }
    hide Padded;
    assert SeedUser(1).subject == "seed-user-" + "00001";
    assert UserEmail(1) == "user" + "00001" + "@seed.example";
  }

  lemma RoomsRead()
    ensures RoomName(0) == "Room A" && RoomName(25) == "Room Z" && RoomName(26) == "Room 27"
  {
    assert Decimal(27) == [Digit(2)] + [Digit(7)];
  }

  lemma AddressReads()
    ensures ExternalEmail(2, 7) == "seed-ext-2-7@seed-external.example"
  {
    assert Decimal(2) == "2" && Decimal(7) == "7";
    hide Decimal;
    assert ExternalEmail(2, 7) == "seed-ext-" + "2" + "-" + "7" + "@seed-external.example";
  }
}
