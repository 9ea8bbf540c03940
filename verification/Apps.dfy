/** Registered apps (comet/app_manager.go): identity, stored form, memory form. */
module Apps {

  /** RegId hashes device, app and user. The hash is taken to be injective: a
      registration id either is the digest of one triple or of none. */
  datatype RegId = Digest(dev: string, app: string, user: string) | Foreign(text: string)

  datatype AppInfo = AppInfo(
    appId: string,
    regTime: int,
    userId: string,
    lastMsgId: int,
    topics: seq<string>,
    sendIds: seq<string>)

  /** The object that regappMap and a client's RegApps both point to. */
  class RegApp {
    const devId: string
    const regId: RegId
    const appId: string
    const userId: string
    const regTime: int
    var lastMsgId: int
    var topics: seq<string>
    var sendIds: seq<string>

    constructor (devId: string, regId: RegId, info: AppInfo)
      ensures this.devId == devId && this.regId == regId && Info() == info
    {
      this.devId, this.regId := devId, regId;
      this.appId, this.regTime, this.userId := info.appId, info.regTime, info.userId;
      lastMsgId, topics, sendIds := info.lastMsgId, info.topics, info.sendIds;
    }

    function Info(): AppInfo
      reads this
    {
      AppInfo(appId, regTime, userId, lastMsgId, topics, sendIds)
    }
  }

  /** The object says of itself what its id says of it. */
  predicate Genuine(r: RegApp) {
    r.regId == Digest(r.devId, r.appId, r.userId)
  }

  /** The text that is hashed. */
  function KeyText(dev: string, app: string, user: string): string {
    dev + "_" + app + "_" + user
  }

  lemma FirstUnderscore(a: string, s: string, u: string)
    requires '_' !in a && u == a + "_" + s
    ensures |a| < |u| && u[|a|] == '_' && (forall i :: 0 <= i < |a| ==> u[i] != '_')
    ensures u[..|a|] == a && u[|a| + 1..] == s
  {
    forall i | 0 <= i < |a|
      ensures u[i] != '_'
    {
      assert u[i] == a[i];
    }
  }

  /** The first underscore ends a prefix that has none. */
  lemma SplitAtUnderscore(a: string, b: string, s: string, t: string)
    requires '_' !in a && '_' !in b
    requires a + "_" + s == b + "_" + t
    ensures a == b && s == t
  {
    var u := a + "_" + s;
    FirstUnderscore(a, s, u);
    FirstUnderscore(b, t, u);
    assert |a| == |b|;
  }

  /** Injectivity of the hashed text needs ids without underscores... */
  lemma KeyTextInjective(dev: string, app: string, user: string, dev': string, app': string, user': string)
    requires '_' !in dev && '_' !in dev' && '_' !in app && '_' !in app'
    requires KeyText(dev, app, user) == KeyText(dev', app', user')
    ensures dev == dev' && app == app' && user == user'
  {
    assert KeyText(dev, app, user) == dev + "_" + (app + "_" + user);
    assert KeyText(dev', app', user') == dev' + "_" + (app' + "_" + user');
    SplitAtUnderscore(dev, dev', app + "_" + user, app' + "_" + user');
    SplitAtUnderscore(app, app', user, user');
  }

  /** ...and fails for every device and app id once one has an underscore. */
  lemma KeyTextCollides(dev: string, mid: string, app: string, user: string)
    ensures KeyText(dev + "_" + mid, app, user) == KeyText(dev, mid + "_" + app, user)
    ensures KeyText(dev, app + "_" + mid, user) == KeyText(dev, app, mid + "_" + user)
    ensures dev + "_" + mid != dev && app + "_" + mid != app
  {
    assert KeyText(dev + "_" + mid, app, user) == dev + "_" + mid + "_" + app + "_" + user;
    assert KeyText(dev, mid + "_" + app, user) == dev + "_" + mid + "_" + app + "_" + user;
    assert KeyText(dev, app + "_" + mid, user) == dev + "_" + app + "_" + mid + "_" + user;
    assert KeyText(dev, app, mid + "_" + user) == dev + "_" + app + "_" + mid + "_" + user;
  }

  lemma SplitString(s: string) returns (a: string, b: string)
    requires '_' in s
    ensures s == a + "_" + b
  {
    var i :| 0 <= i < |s| && s[i] == '_';
    a, b := s[..i], s[i + 1..];
  }

  lemma UnderscoresOfText(dev: string, app: string, user: string)
    ensures multiset(KeyText(dev, app, user))['_'] ==
            2 + multiset(dev)['_'] + multiset(app)['_'] + multiset(user)['_']
  {
    assert multiset(KeyText(dev, app, user)) ==
           multiset(dev) + multiset{'_'} + multiset(app) + multiset{'_'} + multiset(user);
  }

  predicate Collide(a: (string, string, string), b: (string, string, string)) {
    a != b && KeyText(a.0, a.1, a.2) == KeyText(b.0, b.1, b.2)
  }

  /** Exactly: another triple has the same text if and only if there is an
      underscore in one of the three. */
  lemma KeyTextUnique(dev: string, app: string, user: string)
    ensures (exists other :: Collide((dev, app, user), other)) <==> '_' in dev + app + user
  {
    hide KeyText;
    if '_' in dev {
      var x, y := SplitString(dev);
      KeyTextCollides(x, y, app, user);
      assert Collide((dev, app, user), (x, y + "_" + app, user));
    } else if '_' in app {
      var x, y := SplitString(app);
      KeyTextCollides(dev, x, y, user);
      assert Collide((dev, app, user), (dev + "_" + x, y, user));
    } else if '_' in user {
      var x, y := SplitString(user);
      KeyTextCollides(dev, x, app, y);
      assert Collide((dev, app, user), (dev, app + "_" + x, y));
    } else if other :| Collide((dev, app, user), other) {
      UnderscoresOfText(dev, app, user);
      UnderscoresOfText(other.0, other.1, other.2);
      assert '_' !in multiset(other.0) && '_' !in multiset(other.1);
      KeyTextInjective(dev, app, user, other.0, other.1, other.2);
    }
  }
}
